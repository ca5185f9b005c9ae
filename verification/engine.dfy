/**
 * The book engine: the order ledger, the two price-level sides, and the
 * four event rules (add, cancel, fill, reset) that keep them in step.
 * The reconstruction program's global maps and the `OrderBook` class of its
 * test suite follow the same rules; both are modelled by these functions
 * over an explicit `Book` value.
 */
module Engine {
  import opened PriceLevels

  /**
   * The side code of an order. Codes other than 'B' and 'A' are kept in the
   * ledger as they came, but name no book side. Only `SideOf` builds an
   * `Unrecognised` side from input, and never for 'B' or 'A'; the type
   * itself does not rule out `Unrecognised('B')`, which no input produces.
   */
  datatype Side = Bid | Ask | Unrecognised(code: char)

  function SideOf(code: char): (s: Side)
    ensures s == Bid <==> code == 'B'
    ensures s == Ask <==> code == 'A'
    ensures s.Unrecognised? ==> s.code == code
  {
    if code == 'B' then Bid else if code == 'A' then Ask else Unrecognised(code)
  }

  /** A live order: its price in ticks, its remaining size and its side. */
  datatype Order = Order(price: int, size: int, side: Side)

  /** Ledger keyed by order id, and the bid and ask price levels. */
  datatype Book = Book(orders: map<int, Order>, bids: Levels, asks: Levels)

  const EmptyBook := Book(map[], map[], map[])

  /**
   * `after` differs from `before` on the books only by `delta` at `price`
   * on the named side; an unrecognised side leaves both books as they were.
   */
  predicate BooksAdjusted(before: Book, after: Book, side: Side, price: int, delta: int) {
    match side
    case Bid => AdjustedAt(before.bids, after.bids, price, delta) && after.asks == before.asks
    case Ask => AdjustedAt(before.asks, after.asks, price, delta) && after.bids == before.bids
    case Unrecognised(_) => after.bids == before.bids && after.asks == before.asks
  }

  /** Invariants every event keeps, whatever the input. */
  predicate WellFormed(book: Book) {
    && AllPositive(book.bids)
    && AllPositive(book.asks)
    && forall id :: id in book.orders ==> book.orders[id].size > 0
  }

  /** Apply a signed size change to one level of one side. */
  function UpdateBook(book: Book, side: Side, price: int, delta: int): (r: Book)
    ensures r.orders == book.orders
    ensures BooksAdjusted(book, r, side, price, delta)
    ensures AllPositive(book.bids) ==> AllPositive(r.bids)
    ensures AllPositive(book.asks) ==> AllPositive(r.asks)
  {
    match side
    case Bid => book.(bids := Adjust(book.bids, price, delta))
    case Ask => book.(asks := Adjust(book.asks, price, delta))
    case Unrecognised(_) => book
  }

  /** An add is taken only with a non-zero id and a positive size. */
  predicate Accepted(id: int, size: int) {
    id != 0 && size > 0
  }

  /**
   * Record a new order and add its size to its level. The id is stored even
   * when it is already live (the new order replaces the old one in the
   * ledger) and even when the side names no book.
   */
  function AddOrder(book: Book, id: int, price: int, size: int, side: Side): (r: Book)
    ensures !Accepted(id, size) ==> r == book
    ensures Accepted(id, size) ==>
      && id in r.orders
      && r.orders[id] == Order(price, size, side)
      && r.orders - {id} == book.orders - {id}
      && BooksAdjusted(book, r, side, price, size)
    ensures WellFormed(book) ==> WellFormed(r)
  {
    if Accepted(id, size) then
      UpdateBook(book.(orders := book.orders[id := Order(price, size, side)]), side, price, size)
    else
      book
  }

  /** Remove a live order and take its whole remaining size off its level. */
  function CancelOrder(book: Book, id: int): (r: Book)
    ensures id !in book.orders ==> r == book
    ensures id in book.orders ==>
      && r.orders == book.orders - {id}
      && BooksAdjusted(book, r, book.orders[id].side, book.orders[id].price, -book.orders[id].size)
    ensures WellFormed(book) ==> WellFormed(r)
  {
    if id in book.orders then
      var o := book.orders[id];
      UpdateBook(book, o.side, o.price, -o.size).(orders := book.orders - {id})
    else
      book
  }

  /**
   * Execute `size` against a live order: its level drops by the full fill
   * size, and the order goes once nothing of it remains.
   */
  function FillOrder(book: Book, id: int, size: int): (r: Book)
    ensures !(id in book.orders && size > 0) ==> r == book
    ensures id in book.orders && size > 0 ==>
      var o := book.orders[id];
      && BooksAdjusted(book, r, o.side, o.price, -size)
      && r.orders - {id} == book.orders - {id}
      && (id in r.orders <==> size < o.size)
      && (id in r.orders ==> r.orders[id] == Order(o.price, o.size - size, o.side))
    ensures WellFormed(book) ==> WellFormed(r)
  {
    if id in book.orders && size > 0 then
      var o := book.orders[id];
      var b := UpdateBook(book, o.side, o.price, -size);
      var remaining := o.size - size;
      if remaining <= 0 then b.(orders := b.orders - {id})
      else b.(orders := b.orders[id := o.(size := remaining)])
    else
      book
  }

  /** Forget every order and every level. */
  function ResetBook(book: Book): (r: Book)
    ensures |r.orders| == 0 && |r.bids| == 0 && |r.asks| == 0
  {
    EmptyBook
  }

  /** An input event after decoding. `Other` is any unrecognised action code. */
  datatype Event =
    | Add(id: int, price: int, size: int, side: Side)
    | Cancel(id: int)
    | Fill(id: int, size: int)
    | Reset
    | Other

  function Apply(book: Book, e: Event): (r: Book)
    ensures e.Other? ==> r == book
    ensures WellFormed(book) ==> WellFormed(r)
  {
    match e
    case Add(id, price, size, side) => AddOrder(book, id, price, size, side)
    case Cancel(id) => CancelOrder(book, id)
    case Fill(id, size) => FillOrder(book, id, size)
    case Reset => ResetBook(book)
    case Other => book
  }

  // ---------------------------------------------------------------------
  // Ledger and books agree: each level holds the sum of its orders.
  // ---------------------------------------------------------------------

  /** What order `o` contributes to the level `price` on `side`. */
  function Contribution(o: Order, side: Side, price: int): int {
    if o.side == side && o.price == price then o.size else 0
  }

  lemma HasKey(orders: map<int, Order>)
    requires orders != map[]
    ensures exists id :: id in orders
  {
    if forall id :: id !in orders {
      assert false;
    }
  }

  /** Total remaining size of the ledger's orders at `price` on `side`. */
  ghost function Resting(orders: map<int, Order>, side: Side, price: int): int
    decreases orders.Keys
  {
    if orders == map[] then 0
    else
      HasKey(orders);
      var id :| id in orders;
      assert (orders - {id}).Keys < orders.Keys;
      Contribution(orders[id], side, price) + Resting(orders - {id}, side, price)
  }

  /** The sum can be taken with any live order first. */
  lemma {:induction false} RestingRemove(orders: map<int, Order>, id: int, side: Side, price: int)
    requires id in orders
    ensures Resting(orders, side, price) == Contribution(orders[id], side, price) + Resting(orders - {id}, side, price)
    decreases orders.Keys
  {
    var k :| k in orders
      && Resting(orders, side, price) == Contribution(orders[k], side, price) + Resting(orders - {k}, side, price);
    if k != id {
      assert (orders - {k}).Keys < orders.Keys;
      assert (orders - {id}).Keys < orders.Keys;
      RestingRemove(orders - {k}, id, side, price);
      RestingRemove(orders - {id}, k, side, price);
      assert orders - {k} - {id} == orders - {id} - {k};
    }
  }

  /** Positive orders make a non-negative level. */
  lemma {:induction false} RestingNonNegative(orders: map<int, Order>, side: Side, price: int)
    requires forall id :: id in orders ==> orders[id].size > 0
    ensures Resting(orders, side, price) >= 0
    decreases orders.Keys
  {
    if orders != map[] {
      HasKey(orders);
      var k :| k in orders;
      RestingRemove(orders, k, side, price);
      assert (orders - {k}).Keys < orders.Keys;
      RestingNonNegative(orders - {k}, side, price);
    }
  }

  /** Every level on each side is the sum of the ledger's orders there. */
  ghost predicate Consistent(book: Book) {
    forall p :: SizeAt(book.bids, p) == Resting(book.orders, Bid, p) && SizeAt(book.asks, p) == Resting(book.orders, Ask, p)
  }

  /**
   * What the event stream is assumed to respect for the books to track the
   * ledger: an accepted add uses an id that is not live, and a fill of a
   * live order is no larger than what remains of it. The program does not
   * check either.
   */
  predicate Admissible(book: Book, e: Event) {
    match e
    case Add(id, _, size, _) => Accepted(id, size) ==> id !in book.orders
    case Fill(id, size) => id in book.orders ==> size <= book.orders[id].size
    case _ => true
  }

  /** Reading one level of the books after `BooksAdjusted`. */
  lemma LevelAfter(before: Book, after: Book, side: Side, price: int, delta: int, p: int)
    requires BooksAdjusted(before, after, side, price, delta)
    ensures side == Bid && p == price ==>
      SizeAt(after.bids, p) == (if SizeAt(before.bids, p) + delta > 0 then SizeAt(before.bids, p) + delta else 0)
    ensures side == Ask && p == price ==>
      SizeAt(after.asks, p) == (if SizeAt(before.asks, p) + delta > 0 then SizeAt(before.asks, p) + delta else 0)
    ensures side != Bid || p != price ==> SizeAt(after.bids, p) == SizeAt(before.bids, p)
    ensures side != Ask || p != price ==> SizeAt(after.asks, p) == SizeAt(before.asks, p)
  {
    if side == Bid && p != price {
      assert p in after.bids <==> p in after.bids - {price};
      assert p in before.bids <==> p in before.bids - {price};
      if p in after.bids {
        assert after.bids[p] == (after.bids - {price})[p];
        assert before.bids[p] == (before.bids - {price})[p];
      }
    }
    if side == Ask && p != price {
      assert p in after.asks <==> p in after.asks - {price};
      assert p in before.asks <==> p in before.asks - {price};
      if p in after.asks {
        assert after.asks[p] == (after.asks - {price})[p];
        assert before.asks[p] == (before.asks - {price})[p];
      }
    }
  }

  lemma AddKeepsConsistent(book: Book, id: int, price: int, size: int, side: Side)
    requires WellFormed(book) && Consistent(book)
    requires Accepted(id, size) ==> id !in book.orders
    ensures Consistent(AddOrder(book, id, price, size, side))
  {
    var r := AddOrder(book, id, price, size, side);
    if Accepted(id, size) {
      assert r.orders - {id} == book.orders;
      forall p
        ensures SizeAt(r.bids, p) == Resting(r.orders, Bid, p)
        ensures SizeAt(r.asks, p) == Resting(r.orders, Ask, p)
      {
        RestingRemove(r.orders, id, Bid, p);
        RestingRemove(r.orders, id, Ask, p);
        LevelAfter(book, r, side, price, size, p);
      }
    }
  }

  lemma CancelKeepsConsistent(book: Book, id: int)
    requires WellFormed(book) && Consistent(book)
    ensures Consistent(CancelOrder(book, id))
  {
    var r := CancelOrder(book, id);
    if id in book.orders {
      var o := book.orders[id];
      forall p
        ensures SizeAt(r.bids, p) == Resting(r.orders, Bid, p)
        ensures SizeAt(r.asks, p) == Resting(r.orders, Ask, p)
      {
        RestingRemove(book.orders, id, Bid, p);
        RestingRemove(book.orders, id, Ask, p);
        RestingNonNegative(r.orders, Bid, p);
        RestingNonNegative(r.orders, Ask, p);
        LevelAfter(book, r, o.side, o.price, -o.size, p);
      }
    }
  }

  lemma FillKeepsConsistent(book: Book, id: int, size: int)
    requires WellFormed(book) && Consistent(book)
    requires id in book.orders ==> size <= book.orders[id].size
    ensures Consistent(FillOrder(book, id, size))
  {
    var r := FillOrder(book, id, size);
    if id in book.orders && size > 0 {
      var o := book.orders[id];
      forall p
        ensures SizeAt(r.bids, p) == Resting(r.orders, Bid, p)
        ensures SizeAt(r.asks, p) == Resting(r.orders, Ask, p)
      {
        RestingRemove(book.orders, id, Bid, p);
        RestingRemove(book.orders, id, Ask, p);
        RestingNonNegative(book.orders - {id}, Bid, p);
        RestingNonNegative(book.orders - {id}, Ask, p);
        if id in r.orders {
          assert r.orders - {id} == book.orders - {id};
          RestingRemove(r.orders, id, Bid, p);
          RestingRemove(r.orders, id, Ask, p);
        } else {
          assert r.orders == book.orders - {id};
        }
        LevelAfter(book, r, o.side, o.price, -size, p);
      }
    }
  }

  /**
   * Under the stream assumptions every event keeps each level equal to the
   * total of the orders resting there; reset trivially so.
   */
  lemma ApplyKeepsConsistent(book: Book, e: Event)
    requires WellFormed(book) && Consistent(book) && Admissible(book, e)
    ensures Consistent(Apply(book, e))
  {
    match e
    case Add(id, price, size, side) => AddKeepsConsistent(book, id, price, size, side);
    case Cancel(id) => CancelKeepsConsistent(book, id);
    case Fill(id, size) => FillKeepsConsistent(book, id, size);
    case Reset =>
    case Other =>
  }

  /**
   * The fresh-id assumption cannot be dropped: re-adding a live id replaces
   * the ledger entry but still adds its size to the level, so the level
   * counts the order twice.
   */
  lemma DuplicateAddOvercounts()
    ensures var once := AddOrder(EmptyBook, 1, 10000, 5, Bid);
      && Consistent(once)
      && !Consistent(AddOrder(once, 1, 10000, 5, Bid))
  {
    var once := AddOrder(EmptyBook, 1, 10000, 5, Bid);
    assert once == Book(map[1 := Order(10000, 5, Bid)], map[10000 := 5], map[]);
    var twice := AddOrder(once, 1, 10000, 5, Bid);
    assert twice == Book(map[1 := Order(10000, 5, Bid)], map[10000 := 10], map[]);
    assert Consistent(EmptyBook);
    AddKeepsConsistent(EmptyBook, 1, 10000, 5, Bid);
    RestingRemove(twice.orders, 1, Bid, 10000);
    assert twice.orders - {1} == map[];
    assert SizeAt(twice.bids, 10000) != Resting(twice.orders, Bid, 10000);
  }

  /**
   * Nor can the fill bound: filling 8 against a 5-lot takes 3 off another
   * order's share of the level, leaving the level short of its orders.
   */
  lemma OverfillUndercounts()
    ensures var book := AddOrder(AddOrder(EmptyBook, 1, 10000, 5, Bid), 2, 10000, 5, Bid);
      && Consistent(book)
      && !Consistent(FillOrder(book, 1, 8))
  {
    var one := AddOrder(EmptyBook, 1, 10000, 5, Bid);
    assert one == Book(map[1 := Order(10000, 5, Bid)], map[10000 := 5], map[]);
    var book := AddOrder(one, 2, 10000, 5, Bid);
    assert book == Book(map[1 := Order(10000, 5, Bid), 2 := Order(10000, 5, Bid)], map[10000 := 10], map[]);
    assert Consistent(EmptyBook);
    AddKeepsConsistent(EmptyBook, 1, 10000, 5, Bid);
    AddKeepsConsistent(one, 2, 10000, 5, Bid);
    var r := FillOrder(book, 1, 8);
    assert r == Book(map[2 := Order(10000, 5, Bid)], map[10000 := 2], map[]);
    RestingRemove(r.orders, 2, Bid, 10000);
    assert r.orders - {2} == map[];
    assert SizeAt(r.bids, 10000) != Resting(r.orders, Bid, 10000);
  }
}
