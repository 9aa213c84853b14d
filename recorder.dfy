/** The pure parts of main.py: the websocket URL of a symbol's diff depth stream, and the
    conversion of Binance's `[price, quantity]` pairs into the parallel price and quantity
    lists that the snapshot and diff rows store. */
module Recorder {
  import opened Rows
  import opened Seqs

  const StreamPrefix: string := "wss://stream.binance.com:9443/ws/"
  const SlowSuffix: string := "@depth"
  const FastSuffix: string := "@depth@100ms"

  /** `str.lower` on ASCII letters; other characters are kept. */
  function LowerChar(c: char): char {
    if 'A' <= c <= 'Z' then (c as int + 32) as char else c
  }

  function Lower(s: string): (r: string)
    ensures |r| == |s| && forall i :: 0 <= i < |s| ==> r[i] == LowerChar(s[i])
  {
    seq(|s|, i requires 0 <= i < |s| => LowerChar(s[i]))
  }

  /** `depth_stream_url(symbol)` with the configured `stream_interval` as `speed`. An interval
      other than 1000 or 100 fails the assertion (None). */
  function DepthStreamUrl(symbol: string, speed: int): (r: Option<string>)
    ensures r.None? <==> speed != 1000 && speed != 100
  {
    if speed != 1000 && speed != 100 then None
    else Some(StreamPrefix + Lower(symbol) + (if speed == 1000 then SlowSuffix else FastSuffix))
  }

  predicate EndsWith(s: string, suffix: string) {
    |suffix| <= |s| && s[|s| - |suffix|..] == suffix
  }

  /** Reads a stream URL back into the lower-cased symbol and the interval. */
  function ParseStreamUrl(url: string): Option<(string, int)> {
    if |url| < |StreamPrefix| || url[..|StreamPrefix|] != StreamPrefix then None
    else
      var endpoint := url[|StreamPrefix|..];
      if EndsWith(endpoint, FastSuffix) then Some((endpoint[..|endpoint| - |FastSuffix|], 100))
      else if EndsWith(endpoint, SlowSuffix) then Some((endpoint[..|endpoint| - |SlowSuffix|], 1000))
      else None
  }

  /** The URL is the stream prefix, the lower-cased symbol and the interval's suffix, and
      nothing else: it reads back to exactly those. */
  lemma UrlRoundTrip(symbol: string, speed: int)
    requires speed == 1000 || speed == 100
    ensures ParseStreamUrl(DepthStreamUrl(symbol, speed).value) == Some((Lower(symbol), speed))
  {
    var low := Lower(symbol);
    var suffix := if speed == 1000 then SlowSuffix else FastSuffix;
    var url := StreamPrefix + low + suffix;
    assert url[..|StreamPrefix|] == StreamPrefix;
    var endpoint := url[|StreamPrefix|..];
    assert endpoint == low + suffix;
    assert endpoint[|endpoint| - |suffix|..] == suffix;
    assert endpoint[..|endpoint| - |suffix|] == low;
    if speed == 1000 {
      assert endpoint[|endpoint| - 2] == 't';
      assert !EndsWith(endpoint, FastSuffix);
    }
  }

  /** Symbols that differ only in ASCII case share a stream. */
  lemma UrlIgnoresCase(a: string, b: string, speed: int)
    requires |a| == |b| && forall i :: 0 <= i < |a| ==> LowerChar(a[i]) == LowerChar(b[i])
    ensures DepthStreamUrl(a, speed) == DepthStreamUrl(b, speed)
  {
    assert Lower(a) == Lower(b);
  }

  /** `[pairs[0] for pairs in levels]` and `[pairs[1] for pairs in levels]`; an inner list
      shorter than two raises IndexError (None). */
  function SplitLevels(levels: seq<seq<int>>): (r: Option<(seq<int>, seq<int>)>)
    ensures r.None? <==> exists i :: 0 <= i < |levels| && |levels[i]| < 2
  {
    if exists i :: 0 <= i < |levels| && |levels[i]| < 2 then None
    else Some((seq(|levels|, i requires 0 <= i < |levels| => levels[i][0]),
               seq(|levels|, i requires 0 <= i < |levels| => levels[i][1])))
  }

  /** The pair lists that parallel price and quantity lists stand for. */
  function Pairs(price: seq<int>, quantity: seq<int>): seq<seq<int>> {
    seq(Min(|price|, |quantity|), i requires 0 <= i < Min(|price|, |quantity|) => [price[i], quantity[i]])
  }

  /** Splitting keeps the order and the length: the i-th price and quantity are the i-th
      pair's two entries, so `zip(price, quantity)` in the replay gives back the pairs. */
  lemma SplitLevelsZip(levels: seq<seq<int>>)
    requires forall i :: 0 <= i < |levels| ==> |levels[i]| >= 2
    ensures SplitLevels(levels).Some?
    ensures var (price, quantity) := SplitLevels(levels).value;
      && |price| == |levels| && |quantity| == |levels|
      && forall i :: 0 <= i < |levels| ==> Zip(price, quantity)[i] == (levels[i][0], levels[i][1])
  {
  }

  /** Splitting and pairing are inverse: pairs of exactly two entries are rebuilt from the
      split lists, and equal-length lists are recovered from their pairs. */
  lemma SplitPairsRoundTrip(levels: seq<seq<int>>, price: seq<int>, quantity: seq<int>)
    requires |price| == |quantity|
    ensures (forall i :: 0 <= i < |levels| ==> |levels[i]| == 2) ==>
      var (p, q) := SplitLevels(levels).value; Pairs(p, q) == levels
    ensures SplitLevels(Pairs(price, quantity)) == Some((price, quantity))
  {
    if forall i :: 0 <= i < |levels| ==> |levels[i]| == 2 {
      var (p, q) := SplitLevels(levels).value;
      forall i | 0 <= i < |levels| ensures Pairs(p, q)[i] == levels[i] {
        assert levels[i] == [levels[i][0], levels[i][1]];
      }
    }
    var pairs := Pairs(price, quantity);
    assert forall i :: 0 <= i < |pairs| ==> |pairs[i]| == 2;
    assert SplitLevels(pairs).value.0 == price;
    assert SplitLevels(pairs).value.1 == quantity;
  }

  /** The snapshot row `get_full_depth` stores (main.py:47-55); timestamp and symbol are not
      modelled. */
  function SnapshotRow(lastUpdateId: nat, bids: seq<seq<int>>, asks: seq<seq<int>>): Option<DepthSnapshot> {
    match (SplitLevels(bids), SplitLevels(asks))
    case (Some((bp, bq)), Some((ap, aq))) => Some(DepthSnapshot(lastUpdateId, bq, bp, aq, ap))
    case _ => None
  }

  /** The diff row `handle_depth_stream` hands to the dispatcher (main.py:81-87). */
  function DiffRow(first: nat, final: nat, bids: seq<seq<int>>, asks: seq<seq<int>>): Option<DiffDepthStream> {
    match (SplitLevels(bids), SplitLevels(asks))
    case (Some((bp, bq)), Some((ap, aq))) => Some(DiffDepthStream(first, final, bq, bp, aq, ap))
    case _ => None
  }

  /** A stored row keeps each side's pairs: zipping its price and quantity lists, as the
      replay does, gives back the message's pairs in order. */
  lemma RowsKeepPairs(first: nat, final: nat, bids: seq<seq<int>>, asks: seq<seq<int>>)
    requires forall i :: 0 <= i < |bids| ==> |bids[i]| >= 2
    requires forall i :: 0 <= i < |asks| ==> |asks[i]| >= 2
    ensures DiffRow(first, final, bids, asks).Some? && SnapshotRow(first, bids, asks).Some?
    ensures var d := DiffRow(first, final, bids, asks).value;
      && |Zip(d.bidsPrice, d.bidsQuantity)| == |bids| && |Zip(d.asksPrice, d.asksQuantity)| == |asks|
      && (forall i :: 0 <= i < |bids| ==> Zip(d.bidsPrice, d.bidsQuantity)[i] == (bids[i][0], bids[i][1]))
      && (forall i :: 0 <= i < |asks| ==> Zip(d.asksPrice, d.asksQuantity)[i] == (asks[i][0], asks[i][1]))
    ensures var s := SnapshotRow(first, bids, asks).value;
      && (forall i :: 0 <= i < |bids| ==> Zip(s.bidsPrice, s.bidsQuantity)[i] == (bids[i][0], bids[i][1]))
      && (forall i :: 0 <= i < |asks| ==> Zip(s.asksPrice, s.asksQuantity)[i] == (asks[i][0], asks[i][1]))
  {
    SplitLevelsZip(bids);
    SplitLevelsZip(asks);
  }
}
