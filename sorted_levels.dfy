/** The view `partial_orderbook_generator` takes of a book: the side kept in a SortedDict
    (bids under the key `-x`, so best price first either way), its first `level` items, and
    the two sides zipped and flattened into one list. */
module SortedLevels {
  import opened Seqs
  import opened PriceLevels

  /** The SortedDict sort key: `-x` for bids, `x` for asks. */
  function Rank(price: int, descending: bool): int {
    if descending then -price else price
  }

  lemma SomeKey(keys: set<int>) returns (y: int)
    requires keys != {}
    ensures y in keys
  {
    if forall x :: x !in keys {
      assert false;
    }
    y :| y in keys;
  }

  /** Every non-empty set of prices has a best one under either sort key. */
  lemma {:induction false} MinRank(keys: set<int>, descending: bool) returns (m: int)
    requires keys != {}
    ensures m in keys && forall x :: x in keys ==> Rank(m, descending) <= Rank(x, descending)
    decreases |keys|
  {
    var y := SomeKey(keys);
    if forall x :: x in keys ==> Rank(y, descending) <= Rank(x, descending) {
      m := y;
    } else {
      var x :| x in keys && Rank(x, descending) < Rank(y, descending);
      assert x in keys - {y};
      var n := MinRank(keys - {y}, descending);
      m := if Rank(y, descending) < Rank(n, descending) then y else n;
    }
  }

  lemma MinRankExists(keys: set<int>, descending: bool)
    requires keys != {}
    ensures exists m :: m in keys && forall x :: x in keys ==> Rank(m, descending) <= Rank(x, descending)
  {
    var m := MinRank(keys, descending);
  }

  /** The key a SortedDict lists first. */
  function FirstKey(keys: set<int>, descending: bool): (m: int)
    requires keys != {}
    ensures m in keys
    ensures forall x :: x in keys && x != m ==> Rank(m, descending) < Rank(x, descending)
  {
    MinRankExists(keys, descending);
    var m :| m in keys && forall x :: x in keys ==> Rank(m, descending) <= Rank(x, descending);
    m
  }

  /** The keys in SortedDict order: the best key first, then the others in order. */
  function SortedKeys(keys: set<int>, descending: bool): seq<int>
    decreases |keys|
  {
    if keys == {} then []
    else
      var m := FirstKey(keys, descending);
      [m] + SortedKeys(keys - {m}, descending)
  }

  /** The SortedDict order lists every key once and nothing else. */
  lemma {:induction false} SortedKeysMembers(keys: set<int>, descending: bool)
    ensures var r := SortedKeys(keys, descending);
      && |r| == |keys|
      && (forall i :: 0 <= i < |r| ==> r[i] in keys)
      && (forall p :: p in keys ==> p in r)
    decreases |keys|
  {
    if keys != {} {
      var m := FirstKey(keys, descending);
      var others := keys - {m};
      SortedKeysMembers(others, descending);
      var rest := SortedKeys(others, descending);
      var r := SortedKeys(keys, descending);
      assert r == [m] + rest;
      assert |others| == |keys| - 1;
      forall i | 0 < i < |r| ensures r[i] in keys {
        assert r[i] == rest[i - 1];
      }
      forall p | p in keys ensures p in r {
        if p != m { assert p in others; }
      }
    }
  }

  /** ... strictly increasing in rank. */
  lemma {:induction false} SortedKeysOrdered(keys: set<int>, descending: bool)
    ensures var r := SortedKeys(keys, descending);
      forall i, j :: 0 <= i < j < |r| ==> Rank(r[i], descending) < Rank(r[j], descending)
    decreases |keys|
  {
    if keys != {} {
      var m := FirstKey(keys, descending);
      var others := keys - {m};
      SortedKeysOrdered(others, descending);
      SortedKeysMembers(others, descending);
      var rest := SortedKeys(others, descending);
      var r := SortedKeys(keys, descending);
      assert r == [m] + rest;
      forall i, j | 0 <= i < j < |r| ensures Rank(r[i], descending) < Rank(r[j], descending) {
        assert r[j] == rest[j - 1] && rest[j - 1] in others;
        if i > 0 {
          assert r[i] == rest[i - 1];
        }
      }
    }
  }

  /** A prefix of a strictly ordered key list keeps the order, and every key it leaves out
      ranks behind all the keys it keeps. */
  lemma TakeSorted(keys: seq<int>, descending: bool, level: int)
    requires forall i, j :: 0 <= i < j < |keys| ==> Rank(keys[i], descending) < Rank(keys[j], descending)
    ensures var r := Take(keys, level);
      && (forall i, j :: 0 <= i < j < |r| ==> Rank(r[i], descending) < Rank(r[j], descending))
      && (forall p, i :: p in keys && p !in r && 0 <= i < |r| ==> Rank(r[i], descending) < Rank(p, descending))
  {
    var r := Take(keys, level);
    assert forall i :: 0 <= i < |r| ==> r[i] == keys[i];
    forall p, i | p in keys && p !in r && 0 <= i < |r|
      ensures Rank(r[i], descending) < Rank(p, descending)
    {
      var j :| 0 <= j < |keys| && keys[j] == p;
      assert forall k :: 0 <= k < |r| ==> keys[k] != p by {
        forall k | 0 <= k < |r| ensures keys[k] != p {
          assert r[k] in r;
        }
      }
    }
  }

  /** `book.keys()[:level]` of the SortedDict (Python slice rules for a negative `level`). */
  function TopPrices(book: Book, descending: bool, level: int): seq<int> {
    Take(SortedKeys(book.Keys, descending), level)
  }

  /** The `level` best prices of one side: as many as the slice keeps, all prices of the
      book, strictly in sort order, and every price of the book that is left out ranks behind
      all of them. */
  lemma TopPricesSpec(book: Book, descending: bool, level: int)
    ensures var r := TopPrices(book, descending, level);
      && |r| == (if level >= 0 then Min(level, |book|) else if |book| + level > 0 then |book| + level else 0)
      && (forall i :: 0 <= i < |r| ==> r[i] in book)
      && (forall i, j :: 0 <= i < j < |r| ==> Rank(r[i], descending) < Rank(r[j], descending))
      && (forall p, i :: p in book && p !in r && 0 <= i < |r| ==> Rank(r[i], descending) < Rank(p, descending))
  {
    var keys := SortedKeys(book.Keys, descending);
    SortedKeysMembers(book.Keys, descending);
    SortedKeysOrdered(book.Keys, descending);
    assert |book.Keys| == |book|;
    TakeSorted(keys, descending, level);
  }

  /** `book.items()[:level]`: the (price, quantity) pairs of those prices, in that order. */
  function TopLevels(book: Book, descending: bool, level: int): seq<Level> {
    var keys := TopPrices(book, descending, level);
    TopPricesSpec(book, descending, level);
    seq(|keys|, i requires 0 <= i < |keys| => (keys[i], book[keys[i]]))
  }

  /** The comprehension `[val for (b, a) in zip(bids, asks) for val in chain(b, a)]`. */
  function Interleave(bids: seq<Level>, asks: seq<Level>): seq<int>
    decreases |bids|
  {
    if |bids| == 0 || |asks| == 0 then []
    else [bids[0].0, bids[0].1, asks[0].0, asks[0].1] + Interleave(bids[1..], asks[1..])
  }

  /** Four entries per zipped pair of levels, bid level first, as many as the shorter side. */
  lemma {:induction false} InterleaveAt(bids: seq<Level>, asks: seq<Level>)
    ensures var r := Interleave(bids, asks);
      && |r| == 4 * Min(|bids|, |asks|)
      && forall i :: 0 <= i < Min(|bids|, |asks|) ==>
           r[4 * i] == bids[i].0 && r[4 * i + 1] == bids[i].1 && r[4 * i + 2] == asks[i].0 && r[4 * i + 3] == asks[i].1
    decreases |bids|
  {
    if |bids| > 0 && |asks| > 0 {
      InterleaveAt(bids[1..], asks[1..]);
      assert forall i :: 1 <= i < Min(|bids|, |asks|) ==> bids[1..][i - 1] == bids[i] && asks[1..][i - 1] == asks[i];
    }
  }

  /** The flat layout of `[val for (b, a) in zip(bids_items, asks_items) for val in chain(b, a)]`
      at depth `level`: its length is four times the shallower of the two sides' depths (for a
      non-negative `level`, four times the least of `level` and the two book sizes); at
      depth i the bid price and quantity come before the ask price and quantity, and each
      pair is a level of its side; bid prices strictly fall and ask prices strictly rise
      with depth. */
  lemma ProjectLayout(bids: Book, asks: Book, level: int)
    ensures var r, bs, ks := Interleave(TopLevels(bids, true, level), TopLevels(asks, false, level)), TopPrices(bids, true, level), TopPrices(asks, false, level);
      && |r| == 4 * Min(|bs|, |ks|)
      && (level >= 0 ==> |r| == 4 * Min(level, Min(|bids|, |asks|)))
      && (forall i :: 0 <= i < Min(|bs|, |ks|) ==>
            r[4 * i] == bs[i] && r[4 * i] in bids && bids[r[4 * i]] == r[4 * i + 1]
            && r[4 * i + 2] == ks[i] && r[4 * i + 2] in asks && asks[r[4 * i + 2]] == r[4 * i + 3])
      && (forall i, j :: 0 <= i < j < Min(|bs|, |ks|) ==> r[4 * i] > r[4 * j] && r[4 * i + 2] < r[4 * j + 2])
  {
    var bs, ks := TopPrices(bids, true, level), TopPrices(asks, false, level);
    TopPricesSpec(bids, true, level);
    TopPricesSpec(asks, false, level);
    var bl, kl := TopLevels(bids, true, level), TopLevels(asks, false, level);
    InterleaveAt(bl, kl);
    var r := Interleave(bl, kl);
    forall i, j | 0 <= i < j < Min(|bs|, |ks|) ensures r[4 * i] > r[4 * j] && r[4 * i + 2] < r[4 * j + 2] {
      assert Rank(bs[i], true) < Rank(bs[j], true);
      assert Rank(ks[i], false) < Rank(ks[j], false);
    }
  }
}
