/** Order-book reconstruction: `orderbook_generator` and `partial_orderbook_generator` of
    replay.py. The database reads they do are taken as inputs already fetched: the stored
    snapshot rows and the stored diff rows of one symbol, each in timestamp order. A generator
    is modelled by the whole sequence of values it yields. */
module Replay {
  import opened Rows
  import opened Seqs
  import opened PriceLevels
  import opened SortedLevels

  /** A yielded full book; the timestamp and the symbol it also carries are not modelled. */
  datatype FullBook = FullBook(lastUpdateId: nat, bids: Book, asks: Book)

  /** A yielded partial book: the flat `[bid_p, bid_q, ask_p, ask_q, ...]` list. */
  datatype PartialBook = PartialBook(lastUpdateId: nat, book: seq<int>)

  /** The snapshot query: `last_update_id > cursor`, in stored order. */
  function SnapshotsAfter(snapshots: seq<DepthSnapshot>, cursor: int): seq<DepthSnapshot> {
    Filter(snapshots, (s: DepthSnapshot) => s.lastUpdateId > cursor)
  }

  /** The diff query of `diff_depth_stream_generator`: `final_update_id >= id`, in stored order. */
  function DiffsFrom(diffs: seq<DiffDepthStream>, id: int): seq<DiffDepthStream> {
    Filter(diffs, (d: DiffDepthStream) => d.finalUpdateId >= id)
  }

  /** What the loop carries between diffs: the two local books and the snapshots still to be
      swapped in (`next_snapshot` followed by what is left of `sql_result`). */
  datatype ReplayState = ReplayState(bids: Book, asks: Book, pending: seq<DepthSnapshot>)

  /** Both books built from a snapshot: `lists_to_dict` at the start, and `clear()` followed
      by `update(zip(price, quantity))` at a swap, which build the same map. */
  function Install(s: DepthSnapshot, pending: seq<DepthSnapshot>): ReplayState {
    ReplayState(ListsToDict(s.bidsPrice, s.bidsQuantity), ListsToDict(s.asksPrice, s.asksQuantity), pending)
  }

  /** The swap test: the snapshot's id + 1 lies in the diff's `[first, final]` range. */
  predicate SwapsIn(s: DepthSnapshot, d: DiffDepthStream) {
    d.firstUpdateId <= s.lastUpdateId + 1 <= d.finalUpdateId
  }

  /** One admitted diff: swap in the next snapshot when it falls inside the diff, then apply
      the diff's bid and ask levels. */
  function Step(st: ReplayState, d: DiffDepthStream): ReplayState {
    var st1 := if |st.pending| > 0 && SwapsIn(st.pending[0], d) then Install(st.pending[0], st.pending[1..]) else st;
    ReplayState(ApplyLevels(st1.bids, Zip(d.bidsPrice, d.bidsQuantity)),
                ApplyLevels(st1.asks, Zip(d.asksPrice, d.asksQuantity)),
                st1.pending)
  }

  /** True when the loop returns before `d`: a previous diff exists and does not end right
      before `d` begins. */
  predicate Gap(prev: Option<nat>, d: DiffDepthStream) {
    prev.Some? && prev.value + 1 != d.firstUpdateId
  }

  /** The books yielded for the diffs `ds`, from state `st`, `prev` being the final id of the
      previous diff (None before the first one). */
  function Run(st: ReplayState, prev: Option<nat>, ds: seq<DiffDepthStream>): seq<FullBook>
    decreases |ds|
  {
    if |ds| == 0 || Gap(prev, ds[0]) then []
    else
      var st1 := Step(st, ds[0]);
      [FullBook(ds[0].finalUpdateId, st1.bids, st1.asks)] + Run(st1, Some(ds[0].finalUpdateId), ds[1..])
  }

  /** One admitted diff contributes its book and leaves the rest to the next state. */
  lemma RunCons(st: ReplayState, prev: Option<nat>, ds: seq<DiffDepthStream>)
    requires |ds| > 0 && !Gap(prev, ds[0])
    ensures Run(st, prev, ds) == [FullBook(ds[0].finalUpdateId, Step(st, ds[0]).bids, Step(st, ds[0]).asks)]
                                 + Run(Step(st, ds[0]), Some(ds[0].finalUpdateId), ds[1..])
  {
  }

  /** The loop's bookkeeping for one admitted diff: the yields so far, then the rest of the
      run, are the yields so far with this diff's book, then the run from the next state. */
  lemma RunAdmit(acc: seq<FullBook>, st: ReplayState, prev: Option<nat>, stream: seq<DiffDepthStream>, i: nat, st1: ReplayState)
    requires i < |stream| && !Gap(prev, stream[i]) && st1 == Step(st, stream[i])
    ensures acc + Run(st, prev, stream[i..])
         == (acc + [FullBook(stream[i].finalUpdateId, st1.bids, st1.asks)]) + Run(st1, Some(stream[i].finalUpdateId), stream[i + 1..])
  {
    DropStep(stream, i);
    RunCons(st, prev, stream[i..]);
    ConcatAssoc(acc, [FullBook(stream[i].finalUpdateId, st1.bids, st1.asks)], Run(st1, Some(stream[i].finalUpdateId), stream[i + 1..]));
  }

  /** The loop's bookkeeping where it returns: at a gap, or with no diff left, the run adds
      nothing more. */
  lemma RunEnd(acc: seq<FullBook>, st: ReplayState, prev: Option<nat>, stream: seq<DiffDepthStream>, i: nat)
    requires i <= |stream| && (i == |stream| || Gap(prev, stream[i]))
    ensures acc + Run(st, prev, stream[i..]) == acc
  {
    ConcatEmpty(acc);
    if i < |stream| {
      DropStep(stream, i);
    }
  }

  /** Everything `orderbook_generator(cursor, ...)` yields: nothing when no snapshot is after
      the cursor, otherwise the first such snapshot's books and then one book per admitted
      diff, the diffs being those whose final id reaches the snapshot's id. */
  function Reconstruct(cursor: int, snapshots: seq<DepthSnapshot>, diffs: seq<DiffDepthStream>): seq<FullBook> {
    var qs := SnapshotsAfter(snapshots, cursor);
    if |qs| == 0 then []
    else
      var st := Install(qs[0], qs[1..]);
      [FullBook(qs[0].lastUpdateId, st.bids, st.asks)] + Run(st, None, DiffsFrom(diffs, qs[0].lastUpdateId))
  }

  /** `next_snapshot` followed by `sql_result`, as one list. */
  function Pending(next: Option<DepthSnapshot>, rest: seq<DepthSnapshot>): seq<DepthSnapshot> {
    if next.Some? then [next.value] + rest else []
  }

  /** The set-up both generators share (replay.py:254-278 and 396-420): query the snapshots
      after the cursor, pop the first as `snapshot` and the next as `next_snapshot`, and build
      both books from `snapshot`. */
  method OpenReplay(cursor: int, snapshots: seq<DepthSnapshot>)
    returns (found: bool, snapshotId: nat, bidsBook: Book, asksBook: Book,
             nextSnapshot: Option<DepthSnapshot>, sqlResult: seq<DepthSnapshot>)
    ensures found <==> |SnapshotsAfter(snapshots, cursor)| > 0
    ensures found ==> var qs := SnapshotsAfter(snapshots, cursor);
      && snapshotId == qs[0].lastUpdateId
      && ReplayState(bidsBook, asksBook, Pending(nextSnapshot, sqlResult)) == Install(qs[0], qs[1..])
    ensures nextSnapshot.None? ==> sqlResult == []
  {
    sqlResult := SnapshotsAfter(snapshots, cursor);
    found, snapshotId, bidsBook, asksBook, nextSnapshot := false, 0, map[], map[], None;
    if |sqlResult| == 0 {
      return;
    }
    found := true;
    var snapshot := sqlResult[0];
    sqlResult := sqlResult[1..];
    ghost var stored := sqlResult;
    if |sqlResult| > 0 {
      HeadTail(sqlResult);
      nextSnapshot := Some(sqlResult[0]);
      sqlResult := sqlResult[1..];
    }
    snapshotId := snapshot.lastUpdateId;
    bidsBook := ListsToDict(snapshot.bidsPrice, snapshot.bidsQuantity);
    asksBook := ListsToDict(snapshot.asksPrice, snapshot.asksQuantity);
  }

  /** The body both generators share for an admitted diff (replay.py:323-344 and 459-480):
      swap in `next_snapshot` when the diff covers its id + 1, popping the one after it, then
      `update_book` both sides with the diff. */
  method ApplyDiff(bidsBook: Book, asksBook: Book, nextSnapshot: Option<DepthSnapshot>, sqlResult: seq<DepthSnapshot>,
                   d: DiffDepthStream)
    returns (bids: Book, asks: Book, next: Option<DepthSnapshot>, rest: seq<DepthSnapshot>)
    requires nextSnapshot.None? ==> sqlResult == []
    ensures ReplayState(bids, asks, Pending(next, rest)) == Step(ReplayState(bidsBook, asksBook, Pending(nextSnapshot, sqlResult)), d)
    ensures next.None? ==> rest == []
  {
    bids, asks, next, rest := bidsBook, asksBook, nextSnapshot, sqlResult;
    if next.Some? && SwapsIn(next.value, d) {
      bids := ListsToDict(next.value.bidsPrice, next.value.bidsQuantity);
      asks := ListsToDict(next.value.asksPrice, next.value.asksQuantity);
      if |rest| > 0 {
        HeadTail(rest);
        next := Some(rest[0]);
        rest := rest[1..];
      } else {
        next := None;
      }
    }
    bids := UpdateBook(bids, d.bidsPrice, d.bidsQuantity);
    asks := UpdateBook(asks, d.asksPrice, d.asksQuantity);
  }

  /** `orderbook_generator` (replay.py:215-361). `raisedValueError` is set where the source
      raises ValueError (replay.py:318-321); it never is. */
  method OrderbookGenerator(lastUpdateId: int, snapshots: seq<DepthSnapshot>, diffs: seq<DiffDepthStream>)
    returns (books: seq<FullBook>, raisedValueError: bool)
    ensures books == Reconstruct(lastUpdateId, snapshots, diffs)
    ensures !raisedValueError
  {
    books, raisedValueError := [], false;
    var found, snapshotId, bidsBook, asksBook, nextSnapshot, sqlResult := OpenReplay(lastUpdateId, snapshots);
    if !found {
      return;
    }
    ghost var target := Reconstruct(lastUpdateId, snapshots, diffs);
    books := [FullBook(snapshotId, bidsBook, asksBook)];
    var prevFinal: Option<nat> := None;
    // from here on `last_update_id` is the snapshot's id
    var stream := DiffsFrom(diffs, snapshotId);
    var i := 0;
    DropStep(stream, 0);
    while i < |stream|
      invariant 0 <= i <= |stream|
      invariant nextSnapshot.None? ==> sqlResult == []
      invariant !raisedValueError
      invariant books + Run(ReplayState(bidsBook, asksBook, Pending(nextSnapshot, sqlResult)), prevFinal, stream[i..]) == target
    {
      var d := stream[i];
      ghost var st := ReplayState(bidsBook, asksBook, Pending(nextSnapshot, sqlResult));
      if prevFinal.Some? && prevFinal.value + 1 != d.firstUpdateId {
        RunEnd(books, st, prevFinal, stream, i);
        return;
      }
      ghost var prev := prevFinal;
      prevFinal := Some(d.finalUpdateId);
      raisedValueError := prevFinal.None? && (snapshotId + 1 < d.firstUpdateId || snapshotId + 1 > d.finalUpdateId);
      bidsBook, asksBook, nextSnapshot, sqlResult := ApplyDiff(bidsBook, asksBook, nextSnapshot, sqlResult, d);
      RunAdmit(books, st, prev, stream, i, ReplayState(bidsBook, asksBook, Pending(nextSnapshot, sqlResult)));
      books := books + [FullBook(d.finalUpdateId, bidsBook, asksBook)];
      i := i + 1;
    }
    RunEnd(books, ReplayState(bidsBook, asksBook, Pending(nextSnapshot, sqlResult)), prevFinal, stream, i);
  }

  /** The partial view of a full book at depth `level`: its top `level` bid levels (best,
      i.e. highest, first) zipped with its top `level` ask levels (lowest first). */
  function Partial(b: FullBook, level: int): PartialBook {
    PartialBook(b.lastUpdateId, Interleave(TopLevels(b.bids, true, level), TopLevels(b.asks, false, level)))
  }

  /** The partial view of every book of a sequence of yields. */
  function ProjectAll(bs: seq<FullBook>, level: int): seq<PartialBook> {
    seq(|bs|, k requires 0 <= k < |bs| => Partial(bs[k], level))
  }

  lemma ProjectAllSnoc(bs: seq<FullBook>, b: FullBook, level: int)
    ensures ProjectAll(bs + [b], level) == ProjectAll(bs, level) + [Partial(b, level)]
  {
    var l, r := ProjectAll(bs + [b], level), ProjectAll(bs, level) + [Partial(b, level)];
    assert |l| == |r|;
    forall k | 0 <= k < |l| ensures l[k] == r[k] {
      if k < |bs| {
        assert (bs + [b])[k] == bs[k];
      }
    }
  }

  /** `partial_orderbook_generator` (replay.py:364-496): the same reconciliation as
      `OrderbookGenerator`, each yield being the partial view of the book at that point. */
  method PartialOrderbookGenerator(lastUpdateId: int, level: int, snapshots: seq<DepthSnapshot>, diffs: seq<DiffDepthStream>)
    returns (books: seq<PartialBook>, raisedValueError: bool)
    ensures books == ProjectAll(Reconstruct(lastUpdateId, snapshots, diffs), level)
    ensures !raisedValueError
  {
    books, raisedValueError := [], false;
    var found, snapshotId, bidsBook, asksBook, nextSnapshot, sqlResult := OpenReplay(lastUpdateId, snapshots);
    if !found {
      return;
    }
    ghost var target := Reconstruct(lastUpdateId, snapshots, diffs);
    var first := FullBook(snapshotId, bidsBook, asksBook);
    books := [Partial(first, level)];
    ghost var full := [first];
    ProjectAllSnoc([], first, level);
    var prevFinal: Option<nat> := None;
    var stream := DiffsFrom(diffs, snapshotId);
    var i := 0;
    DropStep(stream, 0);
    while i < |stream|
      invariant 0 <= i <= |stream|
      invariant nextSnapshot.None? ==> sqlResult == []
      invariant !raisedValueError
      invariant full + Run(ReplayState(bidsBook, asksBook, Pending(nextSnapshot, sqlResult)), prevFinal, stream[i..]) == target
      invariant books == ProjectAll(full, level)
    {
      var d := stream[i];
      ghost var st := ReplayState(bidsBook, asksBook, Pending(nextSnapshot, sqlResult));
      if prevFinal.Some? && prevFinal.value + 1 != d.firstUpdateId {
        RunEnd(full, st, prevFinal, stream, i);
        return;
      }
      ghost var prev := prevFinal;
      prevFinal := Some(d.finalUpdateId);
      raisedValueError := prevFinal.None? && (snapshotId + 1 < d.firstUpdateId || snapshotId + 1 > d.finalUpdateId);
      bidsBook, asksBook, nextSnapshot, sqlResult := ApplyDiff(bidsBook, asksBook, nextSnapshot, sqlResult, d);
      var b := FullBook(d.finalUpdateId, bidsBook, asksBook);
      RunAdmit(full, st, prev, stream, i, ReplayState(bidsBook, asksBook, Pending(nextSnapshot, sqlResult)));
      ProjectAllSnoc(full, b, level);
      books := books + [Partial(b, level)];
      full := full + [b];
      i := i + 1;
    }
    RunEnd(full, ReplayState(bidsBook, asksBook, Pending(nextSnapshot, sqlResult)), prevFinal, stream, i);
  }
}

/** What the two generators promise about their yields. */
module ReplayProperties {
  import opened Rows
  import opened Seqs
  import opened PriceLevels
  import opened Replay

  /** The generator yields nothing exactly when no stored snapshot is after the cursor. */
  lemma NoSnapshotNoYield(cursor: int, snapshots: seq<DepthSnapshot>, diffs: seq<DiffDepthStream>)
    ensures |Reconstruct(cursor, snapshots, diffs)| == 0 <==>
      forall k :: 0 <= k < |snapshots| ==> snapshots[k].lastUpdateId <= cursor
  {
    var f := (s: DepthSnapshot) => s.lastUpdateId > cursor;
    FilterMembers(snapshots, f);
    var qs := SnapshotsAfter(snapshots, cursor);
    if |qs| > 0 {
      assert qs[0] in snapshots && f(qs[0]);
      var k :| 0 <= k < |snapshots| && snapshots[k] == qs[0];
      assert snapshots[k].lastUpdateId > cursor;
    } else {
      assert forall k :: 0 <= k < |snapshots| ==> !f(snapshots[k]);
    }
  }

  /** The first yield is the first stored snapshot after the cursor, with both of its sides
      turned into books, tagged with that snapshot's id. */
  lemma FirstYield(cursor: int, snapshots: seq<DepthSnapshot>, diffs: seq<DiffDepthStream>, k: nat)
    requires k < |snapshots| && snapshots[k].lastUpdateId > cursor
    requires forall j :: 0 <= j < k ==> snapshots[j].lastUpdateId <= cursor
    ensures var r, s := Reconstruct(cursor, snapshots, diffs), snapshots[k];
      |r| > 0 && r[0] == FullBook(s.lastUpdateId, ListsToDict(s.bidsPrice, s.bidsQuantity), ListsToDict(s.asksPrice, s.asksQuantity))
  {
    FilterFirst(snapshots, (s: DepthSnapshot) => s.lastUpdateId > cursor, k);
  }

  /** A run yields one book per diff of a prefix of `ds`, tagged with that diff's final id:
      the first diff follows `prev` (when there is one) and each later one follows the diff
      before it. */
  lemma {:induction false} RunIds(st: ReplayState, prev: Option<nat>, ds: seq<DiffDepthStream>)
    ensures var r := Run(st, prev, ds);
      && |r| <= |ds|
      && (forall k :: 0 <= k < |r| ==> r[k].lastUpdateId == ds[k].finalUpdateId)
      && (|r| > 0 ==> !Gap(prev, ds[0]))
      && (forall k :: 0 < k < |r| ==> ds[k - 1].finalUpdateId + 1 == ds[k].firstUpdateId)
    decreases |ds|
  {
    if |ds| > 0 && !Gap(prev, ds[0]) {
      var st1 := Step(st, ds[0]);
      var tail := Run(st1, Some(ds[0].finalUpdateId), ds[1..]);
      RunIds(st1, Some(ds[0].finalUpdateId), ds[1..]);
      var r := Run(st, prev, ds);
      assert r == [FullBook(ds[0].finalUpdateId, st1.bids, st1.asks)] + tail;
      assert forall k :: 0 < k < |r| ==> r[k] == tail[k - 1] && ds[1..][k - 1] == ds[k];
      if |tail| > 0 {
        assert ds[1..][0] == ds[1];
      }
    }
  }

  /** A run stops only at a gap: when it yields fewer books than there are diffs, the first
      diff left out does not follow the last one admitted (or `prev`, when none was). */
  lemma {:induction false} RunStops(st: ReplayState, prev: Option<nat>, ds: seq<DiffDepthStream>)
    ensures var r := Run(st, prev, ds);
      |r| < |ds| ==> Gap(if |r| == 0 then prev else Some(ds[|r| - 1].finalUpdateId), ds[|r|])
    decreases |ds|
  {
    if |ds| > 0 && !Gap(prev, ds[0]) {
      var st1 := Step(st, ds[0]);
      var tail := Run(st1, Some(ds[0].finalUpdateId), ds[1..]);
      RunStops(st1, Some(ds[0].finalUpdateId), ds[1..]);
      RunIds(st1, Some(ds[0].finalUpdateId), ds[1..]);
      var r := Run(st, prev, ds);
      assert |r| == |tail| + 1;
      if |r| < |ds| {
        assert ds[1..][|tail|] == ds[|r|];
        if |tail| > 0 {
          assert ds[1..][|tail| - 1] == ds[|r| - 1];
        }
      }
    }
  }

  /** The yields after the first: the k-th (k >= 1) carries the final id of the (k-1)-th diff
      whose final id reaches the snapshot's, and these diffs are contiguous. */
  lemma GeneratorIds(cursor: int, snapshots: seq<DepthSnapshot>, diffs: seq<DiffDepthStream>)
    requires |Reconstruct(cursor, snapshots, diffs)| > 0
    ensures var r := Reconstruct(cursor, snapshots, diffs);
      var ds := DiffsFrom(diffs, r[0].lastUpdateId);
      && |r| <= |ds| + 1
      && (forall k :: 1 <= k < |r| ==> r[k].lastUpdateId == ds[k - 1].finalUpdateId && ds[k - 1].finalUpdateId >= r[0].lastUpdateId)
      && (forall k :: 0 < k < |r| - 1 ==> ds[k - 1].finalUpdateId + 1 == ds[k].firstUpdateId)
  {
    var qs := SnapshotsAfter(snapshots, cursor);
    var st := Install(qs[0], qs[1..]);
    var ds := DiffsFrom(diffs, qs[0].lastUpdateId);
    var run := Run(st, None, ds);
    RunIds(st, None, ds);
    FilterMembers(diffs, (d: DiffDepthStream) => d.finalUpdateId >= qs[0].lastUpdateId);
    var r := Reconstruct(cursor, snapshots, diffs);
    assert forall k :: 1 <= k < |r| ==> r[k] == run[k - 1];
  }

  /** The generator ends only at a gap or when the diffs run out, and the first diff whose
      final id reaches the snapshot's is always applied, whatever its first id: the guide's
      check that it covers the snapshot's id + 1 is not made. */
  lemma GeneratorStops(cursor: int, snapshots: seq<DepthSnapshot>, diffs: seq<DiffDepthStream>)
    requires |Reconstruct(cursor, snapshots, diffs)| > 0
    ensures var r := Reconstruct(cursor, snapshots, diffs);
      var ds := DiffsFrom(diffs, r[0].lastUpdateId);
      && (|r| <= |ds| ==> |r| >= 2 && ds[|r| - 2].finalUpdateId + 1 != ds[|r| - 1].firstUpdateId)
      && (|ds| > 0 ==> |r| >= 2)
  {
    var qs := SnapshotsAfter(snapshots, cursor);
    var st := Install(qs[0], qs[1..]);
    var ds := DiffsFrom(diffs, qs[0].lastUpdateId);
    RunStops(st, None, ds);
    RunIds(st, None, ds);
  }

  /** With well-formed diffs (first id <= final id), the ids of the yields never decrease,
      and strictly increase after the first diff. */
  lemma YieldIdsIncrease(cursor: int, snapshots: seq<DepthSnapshot>, diffs: seq<DiffDepthStream>)
    requires forall k :: 0 <= k < |diffs| ==> diffs[k].firstUpdateId <= diffs[k].finalUpdateId
    ensures var r := Reconstruct(cursor, snapshots, diffs);
      && (forall k :: 0 <= k < |r| - 1 ==> r[k].lastUpdateId <= r[k + 1].lastUpdateId)
      && (forall k :: 1 <= k < |r| - 1 ==> r[k].lastUpdateId < r[k + 1].lastUpdateId)
  {
    var r := Reconstruct(cursor, snapshots, diffs);
    if |r| > 0 {
      GeneratorIds(cursor, snapshots, diffs);
      var ds := DiffsFrom(diffs, r[0].lastUpdateId);
      FilterMembers(diffs, (d: DiffDepthStream) => d.finalUpdateId >= r[0].lastUpdateId);
      forall k | 0 <= k < |ds| ensures ds[k].firstUpdateId <= ds[k].finalUpdateId {
        var j :| 0 <= j < |diffs| && diffs[j] == ds[k];
      }
    }
  }

  /** A swap replaces both books wholesale: what the books held before the diff does not
      matter, and the pending snapshots advance by exactly one. */
  lemma StepSwap(st1: ReplayState, st2: ReplayState, d: DiffDepthStream)
    requires st1.pending == st2.pending && |st1.pending| > 0 && SwapsIn(st1.pending[0], d)
    ensures Step(st1, d) == Step(st2, d)
    ensures Step(st1, d).pending == st1.pending[1..]
  {
  }

  /** Without a swap the pending snapshots stay, and a price the diff does not quote keeps
      its level on either side. */
  lemma StepNoSwap(st: ReplayState, d: DiffDepthStream)
    requires !(|st.pending| > 0 && SwapsIn(st.pending[0], d))
    ensures var r := Step(st, d);
      && r.pending == st.pending
      && (forall p :: LastIndex(Zip(d.bidsPrice, d.bidsQuantity), p) < 0 ==>
            (p in r.bids <==> p in st.bids) && (p in r.bids ==> r.bids[p] == st.bids[p]))
      && (forall p :: LastIndex(Zip(d.asksPrice, d.asksQuantity), p) < 0 ==>
            (p in r.asks <==> p in st.asks) && (p in r.asks ==> r.asks[p] == st.asks[p]))
  {
    assert Step(st, d).bids == ApplyLevels(st.bids, Zip(d.bidsPrice, d.bidsQuantity));
    assert Step(st, d).asks == ApplyLevels(st.asks, Zip(d.asksPrice, d.asksQuantity));
    var r := Step(st, d);
    forall p | LastIndex(Zip(d.bidsPrice, d.bidsQuantity), p) < 0
      ensures (p in r.bids <==> p in st.bids) && (p in r.bids ==> r.bids[p] == st.bids[p])
    {
      ApplyLevelsAt(st.bids, Zip(d.bidsPrice, d.bidsQuantity), p);
    }
    forall p | LastIndex(Zip(d.asksPrice, d.asksQuantity), p) < 0
      ensures (p in r.asks <==> p in st.asks) && (p in r.asks ==> r.asks[p] == st.asks[p])
    {
      ApplyLevelsAt(st.asks, Zip(d.asksPrice, d.asksQuantity), p);
    }
  }
}
