# binance-LOB replay core, in Dafny

This project models the order-book replay engine of binance-LOB and proves properties of
the model. binance-LOB records Binance depth snapshots and diff depth events into a
database, and rebuilds order books from them afterwards.

The modules follow the Python modules:

- `Rows` (`rows.dfy`): the stored snapshot and diff rows, without timestamp and symbol.
- `Seqs` (`seqs.dfy`): Python's `zip`, slicing with a possibly negative bound, and an
  order-keeping filter that stands for a `WHERE` clause.
- `PriceLevels` (`price_levels.dfy`): one side of a book as a price-to-quantity map, with
  `lists_to_dict` and `update_book`.
- `SortedLevels` (`sorted_levels.dfy`): the `SortedDict` orderings (bids by `-x`, asks
  ascending), the top-`level` slice and the flat `[bid_p, bid_q, ask_p, ask_q, ...]`
  layout of a partial book.
- `Replay` (`replay.dfy`): `orderbook_generator` and `partial_orderbook_generator` as
  methods. Each takes the fetched snapshot and diff rows as inputs and returns the whole
  sequence of values the generator yields. Both are proved equal to one reference function,
  `Reconstruct`, built from `Step` (one admitted diff) and `Run` (the diffs up to the first
  gap). The partial generator is proved equal to the partial view of every book
  `Reconstruct` yields.
- `ReplayProperties` (`replay.dfy`): what the yields satisfy. This covers the first yield,
  the update ids of later yields, where the generator stops, the unreachable `ValueError`,
  and snapshot swaps.
- `DataBlocks` (`data_block.dfy`): the `DataBlock` scan, `get_all_data_blocks` and the
  cursor of `fetch_partial_book`.
- `Model` (`dispatcher.dfy`): `DiffDepthStreamDispatcher` as a class. Its buffer is a field
  of type `seq`. The database is a `Sink` object whose insert either stores the whole batch
  or stores nothing.
- `Recorder` (`recorder.dfy`): `depth_stream_url`, and the splitting of `[price, quantity]`
  pairs into the parallel lists that the rows store.

Prices and quantities are integers (ticks). The core only compares them with zero, tests
them for equality and orders them. Database reads are inputs, taken in the order the query
states. The dispatcher's database is the abstract `Sink`.

Where the code departs from its own documentation or from the Binance procedure it cites,
the model follows the code. The departures are:

- The first diff after the snapshot is never checked against the snapshot's id. The test
  at replay.py:318-321 reads `prev_final_update_id` right after replay.py:316 assigned it,
  so it is never true and `ValueError` is never raised (`OrderbookGenerator` ensures
  `!raisedValueError`). Any diff whose final id reaches the snapshot's id is applied, even
  one that begins after the snapshot's id + 1 (`GeneratorStops`).
- Diffs are selected by `final_update_id >= last_update_id`. A diff whose final id equals
  the snapshot's id is applied on top of that snapshot.
- The docstring at replay.py:207 puts asks first in a partial book. The code puts bids
  first, and the model follows the code (`ProjectLayout`).
- `lists_to_dict` keeps zero quantities as entries. Only `update_book` removes them
  (`ListsToDictAt`, `ListsToDictIsUpdateOfEmpty`).
- A row with final id 0 makes `if prev_update_id:` treat the next row as a new beginning.
  That row therefore extends the block unchecked and moves `beginning_update_id` (`Restart`,
  `ChainLengthSpec`).
- `block_snapshot_ids` keeps an id equal to `beginning_update_id - 1`. But
  `fetch_partial_book` starts strictly after that id, so such a snapshot is never the first
  book fetched (`FetchStartsAtBeginning`).
- A block built from no rows never sets `beginning_update_id`. `fetch_partial_book` on it
  fails with AttributeError, and the model returns `None`.

## Model

| member | source | states |
|---|---|---|
| PriceLevels.ListsToDictAt | replay.py:499-500 | The keys are exactly the prices among the first min(len) pairs. Each key maps to the quantity of its last pair, so a later duplicate wins and a zero quantity is kept. |
| PriceLevels.ApplyLevelsAt | replay.py:506-510 | Price by price, the last pair quoting a price decides it: quantity 0 removes it (absent or not), any other quantity sets it. A price no pair quotes keeps its old entry or absence. |
| PriceLevels.UpdateBook | replay.py:503-510 | The loop over `zip(price, quantity)` gives the book of applying those pairs in order. Only min(len) pairs are used. |
| PriceLevels.ApplyLevelsKeepsNoZero | replay.py:507-510 | Applying updates never creates a zero-quantity entry in a book that had none. |
| PriceLevels.ApplyLevelsIdempotent | replay.py:506-510 | Applying the same update twice gives the same book as applying it once. |
| PriceLevels.ListsToDictIsUpdateOfEmpty | replay.py:499-510 | When no quantity is zero, `lists_to_dict` equals `update_book` applied to an empty dict. |
| SortedLevels.FirstKey | replay.py:419-420 | The first price a SortedDict lists is a key of the book that ranks strictly before every other key: the highest bid, or the lowest ask. |
| SortedLevels.SortedKeysMembers | replay.py:419-420 | The sorted key list holds each key of the book once, and nothing else. |
| SortedLevels.SortedKeysOrdered | replay.py:419-420 | Bid keys strictly descend and ask keys strictly ascend. |
| SortedLevels.TakeSorted | replay.py:422-423 | A slice of the sorted keys keeps their order, and every key it drops ranks behind every key it keeps. |
| SortedLevels.TopPricesSpec | replay.py:422-423 | `items()[:level]` has the length of a Python slice (negative `level` counts from the end) and holds only book prices in strict order. Every book price it leaves out ranks behind them. |
| SortedLevels.InterleaveAt | replay.py:425-427 | The flat list has 4 entries per zipped pair of levels, as many pairs as the shorter side. Each entry is laid out as bid price, bid quantity, ask price, ask quantity. |
| SortedLevels.ProjectLayout | replay.py:419-427 | A partial book has length 4·min(level, bids, asks) for level ≥ 0. Entry 4i is the i-th best bid with its quantity at 4i+1, and 4i+2/4i+3 hold the i-th best ask. Bid prices strictly fall and ask prices strictly rise. |
| Replay.OpenReplay | replay.py:254-278 | There is a first snapshot exactly when some snapshot is after the cursor. The books are built from that snapshot, and the snapshots still to swap in are the rest of the query, in order. |
| Replay.ApplyDiff | replay.py:323-344 | The new books and pending snapshots are exactly `Step`. When the diff covers the next snapshot's id + 1, that snapshot replaces both books and the pointer advances by one. Then both sides get `update_book`. |
| Replay.OrderbookGenerator | replay.py:215-361 | The yields equal `Reconstruct`, and ValueError is never raised. |
| Replay.PartialOrderbookGenerator | replay.py:364-496 | The yields are the partial view, at `level`, of every book `Reconstruct` yields, and ValueError is never raised. |
| ReplayProperties.NoSnapshotNoYield | replay.py:254-263 | Nothing is yielded exactly when no snapshot has an id greater than the cursor. |
| ReplayProperties.FirstYield | replay.py:264-295 | The first yield is the first snapshot after the cursor, with both sides built by `lists_to_dict` and tagged with that snapshot's id. |
| ReplayProperties.RunIds | replay.py:311-349 | Each book after a diff carries that diff's final id. The admitted diffs are a prefix of the stream, and each one begins right after the previous one's final id. |
| ReplayProperties.RunStops | replay.py:311-315 | A run ends early only at a gap, where the first diff left out does not begin at the previous final id + 1. |
| ReplayProperties.GeneratorIds | replay.py:297-349 | Yield k ≥ 1 carries the final id of the (k-1)-th diff whose final id reaches the snapshot's. The admitted diffs are contiguous. |
| ReplayProperties.GeneratorStops | replay.py:311-321 | The generator ends only at a gap or when the diffs run out. If any diff exists, the first one is always applied: there is no check against the snapshot. |
| ReplayProperties.YieldIdsIncrease | replay.py:311-349 | When every diff has first ≤ final, the yielded ids never decrease, and they strictly increase after the first diff. |
| ReplayProperties.StepSwap | replay.py:323-341 | On a swap, both books are replaced wholesale: the old books do not matter, and the pending snapshots advance by exactly one. |
| ReplayProperties.StepNoSwap | replay.py:323-344 | Without a swap, the pending snapshots stay the same, and every price the diff does not quote keeps its level on both sides. |
| DataBlocks.ChainLengthSpec | replay.py:86-102 | `size` is the length of the longest prefix whose consecutive rows link. It is 0 only when there are no rows, and the row after the prefix does not link. |
| DataBlocks.Restart | replay.py:90-100 | `beginning_update_id` comes from the last row taken as a new beginning: the first row, or a row after a final id of 0. |
| DataBlocks.NewDataBlock | replay.py:74-129 | The for/else scan over the rows after the cursor, followed by the snapshot filter, builds exactly `BlockOf`. |
| DataBlocks.ContiguousBlock | replay.py:86-102 | When no final id is 0, the block is the longest prefix with first = previous final + 1. It begins at the first row's first id and ends at its last row's final id. |
| DataBlocks.BlockSnapshotIdsMembers | replay.py:125-129 | The block's snapshot ids are exactly the stored ids with beginning ≤ id + 1 ≤ ending. |
| DataBlocks.BlockAfterCursor | replay.py:79-102 | With well-formed rows, a block begins after the cursor and ends at or after its beginning. |
| DataBlocks.GetAllDataBlocks | replay.py:162-170 | Every block is non-empty. The first is built from the given id and each later one from the previous block's ending id. The blocks begin strictly after one another, and the block after the last is empty. |
| DataBlocks.NextCursorShrinks | replay.py:167-169 | Moving the cursor to a block's ending id leaves strictly fewer rows to scan. |
| DataBlocks.FetchPartialBook | replay.py:132-144 | Fails exactly on an empty block. Otherwise it is the partial generator started from beginning id - 1. |
| DataBlocks.FetchStartsAtBeginning | replay.py:142-144 | The first book fetched for a block has an id at or after the block's beginning id. |
| Model.Sink.Insert | model.py:102-103 | A database insert either appends the whole batch in order or changes nothing. |
| Model.DiffDepthStreamDispatcher.constructor | model.py:70-73 | A new dispatcher has an empty buffer, the given database and batch size, and the no-loss invariant. |
| Model.DiffDepthStreamDispatcher.Insert | model.py:75-99 | The record is appended after the earlier ones. Below `batch_size` nothing is sent. At or above it, the whole buffer is either stored in order and emptied, or kept whole. Nothing is lost or reordered. |
| Model.DiffDepthStreamDispatcher.InsertToDb | model.py:101-106 | On success, the whole buffer goes to the database in order and the buffer is emptied. On failure, the buffer and the database stay as they were. |
| Model.DiffDepthStreamDispatcher.Length | model.py:108-109 | `len(dispatcher)` is the buffer length. |
| Recorder.DepthStreamUrl | main.py:33-35 | The URL fails exactly when the interval is neither 1000 nor 100. |
| Recorder.UrlRoundTrip | main.py:36-38 | The URL is the stream prefix, the lower-cased symbol and `@depth` (1000) or `@depth@100ms` (100). It reads back to exactly that symbol and interval. |
| Recorder.UrlIgnoresCase | main.py:36 | Symbols that differ only in letter case get the same URL. |
| Recorder.SplitLevels | main.py:50-53 | Splitting fails (IndexError) exactly when some pair has fewer than two entries. |
| Recorder.SplitLevelsZip | main.py:83-86 | Both lists have the pairs' length, and price[i], quantity[i] are the i-th pair's entries. |
| Recorder.SplitPairsRoundTrip | main.py:50-53 | Splitting and re-pairing are inverse on two-entry pairs and on equal-length lists. |
| Recorder.RowsKeepPairs | main.py:81-86 | The stored snapshot and diff rows zip back, as the replay zips them, into the message's pairs in order. |

## Left out

- Database access (ClickHouse `Client`, the ORM queries, `diff_depth_stream_generator`, `get_snapshots_update_ids`, `get_all_symbols` and the timestamp lookups in `DataBlock.__init__`): their results are inputs. Each input is taken in the order its query states. For the snapshot query, the stored order stands for `ORDER BY timestamp`.
- The `block_size` paging of the queries: the model sees all rows at once, which is what paging yields.
- Timestamps and symbols carried in rows and yields: no logic reads them.
- Float and Decimal arithmetic: prices and quantities are integers, since the logic only compares them.
- `return_copy=False` aliasing of the yielded books: the model has value semantics (the copy case).
- The websocket and HTTP handling, the scheduling of full fetches, the logger and configuration loading: these are network, clock and file I/O. The interval of `depth_stream_url` is a parameter instead of a configuration read.
- `__repr__` methods, `DataBlock.__len__` (it returns `size`, which the model exposes as the `size` field) and the `__main__` blocks.
- `main.py:122` constructs the dispatcher without a batch size. This is outside the dispatcher's logic.
- Update ids are unbounded naturals. ClickHouse stores them as 64-bit integers, and their width is never reached in practice.
- The exception message the dispatcher prints on a failed insert.
- DataBlocks.GetAllDataBlocks: requires every row to have first id ≤ final id. On a row with final < first, the source's loop can revisit the same cursor forever. The model does not describe that non-termination.
- DataBlocks.BlockAfterCursor: requires the same well-formed rows and a non-negative cursor, since it supports the termination argument above.
- Recorder.DepthStreamUrl: models `str.lower` on ASCII letters only. Symbols are ASCII tickers.
- Model.DiffDepthStreamDispatcher.Insert: whether the database accepts a batch is left open (either outcome is allowed). The model does not determine which occurs.
