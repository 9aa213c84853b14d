/** One side of an order book as replay.py keeps it: a dictionary from price to quantity,
    built by `lists_to_dict` and changed by `update_book`. */
module PriceLevels {
  import opened Seqs

  /** price -> quantity, both in ticks */
  type Book = map<int, int>

  /** a (price, quantity) pair as `zip(price, quantity)` produces it */
  type Level = (int, int)

  /** The index of the last pair quoting price `p`, or -1 when none does. */
  function LastIndex(pairs: seq<Level>, p: int): (k: int)
    ensures -1 <= k < |pairs|
    ensures k >= 0 ==> pairs[k].0 == p
    ensures forall i :: k < i < |pairs| ==> pairs[i].0 != p
    decreases |pairs|
  {
    if |pairs| == 0 then -1
    else if pairs[|pairs| - 1].0 == p then |pairs| - 1
    else LastIndex(pairs[..|pairs| - 1], p)
  }

  /** The dictionary comprehension of `lists_to_dict`, one pair at a time. */
  function Assign(pairs: seq<Level>): Book
    decreases |pairs|
  {
    if |pairs| == 0 then map[]
    else Assign(pairs[..|pairs| - 1])[pairs[|pairs| - 1].0 := pairs[|pairs| - 1].1]
  }

  lemma {:induction false} AssignAt(pairs: seq<Level>, p: int)
    ensures p in Assign(pairs) <==> LastIndex(pairs, p) >= 0
    ensures p in Assign(pairs) ==> Assign(pairs)[p] == pairs[LastIndex(pairs, p)].1
    decreases |pairs|
  {
    if |pairs| > 0 {
      AssignAt(pairs[..|pairs| - 1], p);
    }
  }

  /** `lists_to_dict(price, quantity)`: the comprehension over `zip(price, quantity)`. */
  function ListsToDict(price: seq<int>, quantity: seq<int>): Book {
    Assign(Zip(price, quantity))
  }

  /** What `lists_to_dict` builds: every price of the first min(|price|, |quantity|) pairs
      is a key, and no other price; it holds the quantity of the last pair quoting it (a zero
      quantity is kept as an entry). */
  lemma ListsToDictAt(price: seq<int>, quantity: seq<int>)
    ensures var r := ListsToDict(price, quantity);
      && (forall p :: p in r <==> p in price[..Min(|price|, |quantity|)])
      && (forall p :: p in r ==> var k := LastIndex(Zip(price, quantity), p); 0 <= k && r[p] == quantity[k])
  {
    var pairs := Zip(price, quantity);
    assert forall p :: p in price[..Min(|price|, |quantity|)] <==> LastIndex(pairs, p) >= 0 by {
      forall p ensures p in price[..Min(|price|, |quantity|)] <==> LastIndex(pairs, p) >= 0 {
        var k := LastIndex(pairs, p);
        if p in price[..Min(|price|, |quantity|)] {
          var j :| 0 <= j < Min(|price|, |quantity|) && price[j] == p;
          assert pairs[j].0 == p;
        }
        if k >= 0 {
          assert price[..Min(|price|, |quantity|)][k] == p;
        }
      }
    }
    forall p ensures p in Assign(pairs) <==> LastIndex(pairs, p) >= 0
      ensures p in Assign(pairs) ==> Assign(pairs)[p] == pairs[LastIndex(pairs, p)].1
    {
      AssignAt(pairs, p);
    }
  }

  /** One iteration of `update_book`: a zero quantity removes the price (absent or not),
      any other quantity inserts or overwrites it. */
  function SetLevel(book: Book, level: Level): Book {
    if level.1 == 0 then book - {level.0} else book[level.0 := level.1]
  }

  /** The book after applying `pairs` in order. */
  function ApplyLevels(book: Book, pairs: seq<Level>): Book
    decreases |pairs|
  {
    if |pairs| == 0 then book
    else SetLevel(ApplyLevels(book, pairs[..|pairs| - 1]), pairs[|pairs| - 1])
  }

  /** The meaning of applying pairs, price by price: the last pair for a price decides it
      (removed when its quantity is 0, set to it otherwise); a price no pair names keeps
      whatever the book had. */
  lemma {:induction false} ApplyLevelsAt(book: Book, pairs: seq<Level>, p: int)
    ensures var r, k := ApplyLevels(book, pairs), LastIndex(pairs, p);
      if k >= 0 then
        (p in r <==> pairs[k].1 != 0) && (p in r ==> r[p] == pairs[k].1)
      else
        (p in r <==> p in book) && (p in r ==> r[p] == book[p])
    decreases |pairs|
  {
    if |pairs| > 0 {
      ApplyLevelsAt(book, pairs[..|pairs| - 1], p);
    }
  }

  /** `update_book(book, price, quantity)`: walks `zip(price, quantity)` and updates the
      book level by level. */
  method UpdateBook(book: Book, price: seq<int>, quantity: seq<int>) returns (r: Book)
    ensures r == ApplyLevels(book, Zip(price, quantity))
  {
    ghost var pairs := Zip(price, quantity);
    r := book;
    var i := 0;
    while i < |price| && i < |quantity|
      invariant 0 <= i <= Min(|price|, |quantity|)
      invariant r == ApplyLevels(book, pairs[..i])
    {
      var p, q := price[i], quantity[i];
      if q == 0 {
        r := r - {p};
      } else {
        r := r[p := q];
      }
      assert pairs[..i + 1][..i] == pairs[..i];
      i := i + 1;
    }
    assert pairs[..i] == pairs;
  }

  /** No price is stored with quantity 0. */
  ghost predicate NoZeroLevels(book: Book) {
    forall p :: p in book ==> book[p] != 0
  }

  /** Updating never introduces a zero-quantity entry. */
  lemma {:induction false} ApplyLevelsKeepsNoZero(book: Book, pairs: seq<Level>)
    requires NoZeroLevels(book)
    ensures NoZeroLevels(ApplyLevels(book, pairs))
    decreases |pairs|
  {
    if |pairs| > 0 {
      ApplyLevelsKeepsNoZero(book, pairs[..|pairs| - 1]);
    }
  }

  /** Applying the same update twice in a row gives the book of applying it once. */
  lemma ApplyLevelsIdempotent(book: Book, pairs: seq<Level>)
    ensures ApplyLevels(ApplyLevels(book, pairs), pairs) == ApplyLevels(book, pairs)
  {
    var once := ApplyLevels(book, pairs);
    var twice := ApplyLevels(once, pairs);
    forall p ensures (p in twice <==> p in once) && (p in twice ==> twice[p] == once[p]) {
      ApplyLevelsAt(book, pairs, p);
      ApplyLevelsAt(once, pairs, p);
    }
  }

  /** A book without zero entries is exactly what update_book builds from the empty book,
      so `lists_to_dict` of such a side agrees with `update_book` on `{}`. */
  lemma ListsToDictIsUpdateOfEmpty(price: seq<int>, quantity: seq<int>)
    requires forall i :: 0 <= i < |quantity| ==> quantity[i] != 0
    ensures ListsToDict(price, quantity) == ApplyLevels(map[], Zip(price, quantity))
  {
    var pairs := Zip(price, quantity);
    var a, b := ListsToDict(price, quantity), ApplyLevels(map[], pairs);
    forall p ensures (p in a <==> p in b) && (p in a ==> a[p] == b[p]) {
      ApplyLevelsAt(map[], pairs, p);
      AssignAt(pairs, p);
    }
  }
}
