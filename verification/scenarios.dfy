/**
 * The scenarios of the order-book test suite, each stated as the exact row
 * the snapshot writes after the suite's sequence of book operations.
 */
module Scenarios {
  import opened Numerals
  import opened PriceLevels
  import opened Engine
  import opened Snapshot

  lemma Digits()
    ensures NatText(0) == "0" && NatText(1) == "1" && NatText(6) == "6" && NatText(9) == "9"
    ensures NatText(10) == "10" && NatText(20) == "20" && NatText(40) == "40" && NatText(99) == "99"
    ensures NatText(100) == "100" && NatText(101) == "101"
  {
    assert NatText(1) == "1";
    assert NatText(2) == "2";
    assert NatText(4) == "4";
    assert NatText(9) == "9";
    assert NatText(10) == "10";
    assert NatText(100) == "100";
  }

  /** The texts of the slots the scenarios show. */
  lemma Slots()
    ensures SlotText(Level(10050, 10)) == ",100.50,10"
    ensures SlotText(Level(10050, 6)) == ",100.50,6"
    ensures SlotText(Level(10050, 20)) == ",100.50,20"
    ensures SlotText(Level(10100, 20)) == ",101.00,20"
    ensures SlotText(Level(9950, 40)) == ",99.50,40"
    ensures SlotText(Level(9900, 10)) == ",99.00,10"
  {
    Prices();
    Sizes();
    SlotShows(10050, 10, "100.50", "10");
    SlotShows(10050, 6, "100.50", "6");
    SlotShows(10050, 20, "100.50", "20");
    SlotShows(10100, 20, "101.00", "20");
    SlotShows(9950, 40, "99.50", "40");
    SlotShows(9900, 10, "99.00", "10");
  }

  /** A level whose price and size read `p` and `z` is written ",p,z". */
  lemma SlotShows(price: int, size: int, p: string, z: string)
    requires PriceText(price) == p && IntText(size) == z
    ensures SlotText(Level(price, size)) == "," + p + "," + z
  {
  }

  lemma Prices()
    ensures PriceText(10050) == "100.50" && PriceText(10100) == "101.00"
    ensures PriceText(9950) == "99.50" && PriceText(9900) == "99.00"
  {
    Digits();
  }

  lemma Sizes()
    ensures IntText(6) == "6" && IntText(10) == "10" && IntText(20) == "20" && IntText(40) == "40"
  {
    Digits();
  }

  // ---------------------------------------------------------------------
  // Rows of the book shapes the scenarios reach.
  // ---------------------------------------------------------------------

  lemma SlotsTextPair(a: Slot, b: Slot)
    ensures SlotsText([a, b]) == SlotText(a) + SlotText(b)
  {
    assert [a, b] == [a] + [b];
    SlotsTextAppend([a], [b]);
    SlotsTextOne(a);
    SlotsTextOne(b);
  }

  /** A side with no levels: twenty commas. */
  lemma NoLevelSide(levels: Levels, descending: bool)
    requires levels == map[]
    ensures SlotsText(TopSlots(levels, descending)) == Commas(20)
  {
    SideText(levels, descending, []);
    assert Listed(levels, []) == [];
  }

  lemma OneLevelSide(levels: Levels, descending: bool, price: int, size: int)
    requires levels == map[price := size]
    ensures SlotsText(TopSlots(levels, descending)) == SlotText(Level(price, size)) + Commas(18)
  {
    SideText(levels, descending, [price]);
    assert Listed(levels, [price]) == [Level(price, size)];
    SlotsTextOne(Level(price, size));
  }

  lemma TwoLevelSide(levels: Levels, descending: bool, first: int, firstSize: int, second: int, secondSize: int)
    requires Better(descending, first, second)
    requires levels == map[first := firstSize, second := secondSize]
    ensures SlotsText(TopSlots(levels, descending))
      == SlotText(Level(first, firstSize)) + SlotText(Level(second, secondSize)) + Commas(16)
  {
    TwoLevels(levels, descending, first, firstSize, second, secondSize);
    SideText(levels, descending, [first, second]);
    SlotsTextPair(Level(first, firstSize), Level(second, secondSize));
  }

  lemma TwoLevels(levels: Levels, descending: bool, first: int, firstSize: int, second: int, secondSize: int)
    requires Better(descending, first, second)
    requires levels == map[first := firstSize, second := secondSize]
    ensures Lists([first, second], levels.Keys, descending)
    ensures Listed(levels, [first, second]) == [Level(first, firstSize), Level(second, secondSize)]
  {
    assert levels.Keys == {first, second};
  }

  lemma CommaRuns()
    ensures Commas(16) == ",,,,,,,,,,,,,,,,"
    ensures Commas(18) == ",,,,,,,,,,,,,,,,,,"
    ensures Commas(20) == ",,,,,,,,,,,,,,,,,,,,"
    ensures Commas(40) == ",,,,,,,,,,,,,,,,,,,,,,,,,,,,,,,,,,,,,,,,"
  {
    assert Commas(16) == ",,,,,,,,,,,,,,,,";
    assert Commas(18) == ",,,,,,,,,,,,,,,,,,";
    assert Commas(20) == ",,,,,,,,,,,,,,,,,,,,";
  }

  // ---------------------------------------------------------------------
  // The scenarios.
  // ---------------------------------------------------------------------

  /** One bid of 10 at 100.50: the bid pair in slot 0, the other 19 slots empty. */
  lemma HandlesSingleAdd()
    ensures WriteSnapshot("T1", AddOrder(EmptyBook, 101, 10050, 10, Bid))
      == "T1,100.50,10,,,,,,,,,,,,,,,,,,,,,,,,,,,,,,,,,,,,,,\n"
  {
    var book := Book(map[101 := Order(10050, 10, Bid)], map[10050 := 10], map[]);
    assert AddOrder(EmptyBook, 101, 10050, 10, Bid) == book;
    SnapshotText("T1", book);
    OneLevelSide(book.bids, true, 10050, 10);
    NoLevelSide(book.asks, false);
    Slots();
    CommaRuns();
    SingleAddText();
  }

  lemma SingleAddText()
    ensures "T1" + (",100.50,10" + ",,,,,,,,,,,,,,,,,,") + ",,,,,,,,,,,,,,,,,,,," + "\n"
      == "T1,100.50,10,,,,,,,,,,,,,,,,,,,,,,,,,,,,,,,,,,,,,,\n"
  {
    assert "T1" + (",100.50,10" + ",,,,,,,,,,,,,,,,,,") == "T1,100.50,10,,,,,,,,,,,,,,,,,,";
    assert "T1,100.50,10,,,,,,,,,,,,,,,,,," + ",,,,,,,,,,,,,,,,,,,," + "\n" == "T1,100.50,10,,,,,,,,,,,,,,,,,,,,,,,,,,,,,,,,,,,,,,\n";
  }

  /** A bid and an ask: the ask pair starts at field 21, after ten bid slots. */
  lemma HandlesBidAndAsk()
    ensures WriteSnapshot("T2", AddOrder(AddOrder(EmptyBook, 101, 10050, 10, Bid), 102, 10100, 20, Ask))
      == "T2,100.50,10,,,,,,,,,,,,,,,,,,,101.00,20,,,,,,,,,,,,,,,,,,\n"
  {
    var book := BidAndAskBook();
    SnapshotText("T2", book);
    OneLevelSide(book.bids, true, 10050, 10);
    OneLevelSide(book.asks, false, 10100, 20);
    Slots();
    CommaRuns();
    BidAndAskText();
  }

  lemma BidAndAskBook() returns (book: Book)
    ensures book == AddOrder(AddOrder(EmptyBook, 101, 10050, 10, Bid), 102, 10100, 20, Ask)
    ensures book == Book(map[101 := Order(10050, 10, Bid), 102 := Order(10100, 20, Ask)],
                         map[10050 := 10], map[10100 := 20])
  {
    var book1 := Book(map[101 := Order(10050, 10, Bid)], map[10050 := 10], map[]);
    assert AddOrder(EmptyBook, 101, 10050, 10, Bid) == book1;
    book := Book(map[101 := Order(10050, 10, Bid), 102 := Order(10100, 20, Ask)],
                 map[10050 := 10], map[10100 := 20]);
    assert AddOrder(book1, 102, 10100, 20, Ask) == book;
  }

  lemma BidAndAskText()
    ensures "T2" + (",100.50,10" + ",,,,,,,,,,,,,,,,,,") + (",101.00,20" + ",,,,,,,,,,,,,,,,,,") + "\n"
      == "T2,100.50,10,,,,,,,,,,,,,,,,,,,101.00,20,,,,,,,,,,,,,,,,,,\n"
  {
    assert "T2" + (",100.50,10" + ",,,,,,,,,,,,,,,,,,") == "T2,100.50,10,,,,,,,,,,,,,,,,,,";
    assert "T2,100.50,10,,,,,,,,,,,,,,,,,," + (",101.00,20" + ",,,,,,,,,,,,,,,,,,") == "T2,100.50,10,,,,,,,,,,,,,,,,,,,101.00,20,,,,,,,,,,,,,,,,,,";
    assert "T2,100.50,10,,,,,,,,,,,,,,,,,,,101.00,20,,,,,,,,,,,,,,,,,," + "\n" == "T2,100.50,10,,,,,,,,,,,,,,,,,,,101.00,20,,,,,,,,,,,,,,,,,,\n";
  }

  /** Cancelling the only bid empties the bid side; the ask stays in place. */
  lemma HandlesCancelOrder()
    ensures WriteSnapshot("T3",
      CancelOrder(AddOrder(AddOrder(EmptyBook, 101, 10050, 10, Bid), 102, 10100, 20, Ask), 101))
      == "T3,,,,,,,,,,,,,,,,,,,,,101.00,20,,,,,,,,,,,,,,,,,,\n"
  {
    var book2 := BidAndAskBook();
    var book := Book(map[102 := Order(10100, 20, Ask)], map[], map[10100 := 20]);
    assert CancelOrder(book2, 101) == book;
    SnapshotText("T3", book);
    NoLevelSide(book.bids, true);
    OneLevelSide(book.asks, false, 10100, 20);
    Slots();
    CommaRuns();
    CancelText();
  }

  lemma CancelText()
    ensures "T3" + ",,,,,,,,,,,,,,,,,,,," + (",101.00,20" + ",,,,,,,,,,,,,,,,,,") + "\n"
      == "T3,,,,,,,,,,,,,,,,,,,,,101.00,20,,,,,,,,,,,,,,,,,,\n"
  {
    assert "T3" + ",,,,,,,,,,,,,,,,,,,," == "T3,,,,,,,,,,,,,,,,,,,,";
    assert "T3,,,,,,,,,,,,,,,,,,,," + (",101.00,20" + ",,,,,,,,,,,,,,,,,,") == "T3,,,,,,,,,,,,,,,,,,,,,101.00,20,,,,,,,,,,,,,,,,,,";
    assert "T3,,,,,,,,,,,,,,,,,,,,,101.00,20,,,,,,,,,,,,,,,,,," + "\n" == "T3,,,,,,,,,,,,,,,,,,,,,101.00,20,,,,,,,,,,,,,,,,,,\n";
  }

  /** A partial fill of 4 leaves 6 at the level, and the order resting. */
  lemma HandlesPartialFill()
    ensures WriteSnapshot("T4", FillOrder(AddOrder(EmptyBook, 101, 10050, 10, Bid), 101, 4))
      == "T4,100.50,6,,,,,,,,,,,,,,,,,,,,,,,,,,,,,,,,,,,,,,\n"
  {
    var book1 := Book(map[101 := Order(10050, 10, Bid)], map[10050 := 10], map[]);
    assert AddOrder(EmptyBook, 101, 10050, 10, Bid) == book1;
    var book := Book(map[101 := Order(10050, 6, Bid)], map[10050 := 6], map[]);
    assert FillOrder(book1, 101, 4) == book;
    SnapshotText("T4", book);
    OneLevelSide(book.bids, true, 10050, 6);
    NoLevelSide(book.asks, false);
    Slots();
    CommaRuns();
    PartialFillText();
  }

  lemma PartialFillText()
    ensures "T4" + (",100.50,6" + ",,,,,,,,,,,,,,,,,,") + ",,,,,,,,,,,,,,,,,,,," + "\n"
      == "T4,100.50,6,,,,,,,,,,,,,,,,,,,,,,,,,,,,,,,,,,,,,,\n"
  {
    assert "T4" + (",100.50,6" + ",,,,,,,,,,,,,,,,,,") == "T4,100.50,6,,,,,,,,,,,,,,,,,,";
    assert "T4,100.50,6,,,,,,,,,,,,,,,,,," + ",,,,,,,,,,,,,,,,,,,," + "\n" == "T4,100.50,6,,,,,,,,,,,,,,,,,,,,,,,,,,,,,,,,,,,,,,\n";
  }

  /** A fill of the whole size removes both the level and the order. */
  lemma HandlesFullFill()
    ensures FillOrder(AddOrder(EmptyBook, 101, 10050, 10, Bid), 101, 10) == EmptyBook
    ensures WriteSnapshot("T5", FillOrder(AddOrder(EmptyBook, 101, 10050, 10, Bid), 101, 10))
      == "T5,,,,,,,,,,,,,,,,,,,,,,,,,,,,,,,,,,,,,,,,\n"
  {
    var book1 := Book(map[101 := Order(10050, 10, Bid)], map[10050 := 10], map[]);
    assert AddOrder(EmptyBook, 101, 10050, 10, Bid) == book1;
    assert FillOrder(book1, 101, 10) == EmptyBook;
    EmptyRow("T5");
    FullFillText();
  }

  lemma FullFillText()
    ensures "T5" + ",,,,,,,,,,,,,,,,,,,,,,,,,,,,,,,,,,,,,,,," + "\n" == "T5,,,,,,,,,,,,,,,,,,,,,,,,,,,,,,,,,,,,,,,,\n"
  {
    assert "T5" + ",,,,,,,,,,,,,,,,,,,,,,,,,,,,,,,,,,,,,,,," == "T5,,,,,,,,,,,,,,,,,,,,,,,,,,,,,,,,,,,,,,,,";
    assert "T5,,,,,,,,,,,,,,,,,,,,,,,,,,,,,,,,,,,,,,,," + "\n" == "T5,,,,,,,,,,,,,,,,,,,,,,,,,,,,,,,,,,,,,,,,\n";
  }

  /** The row of the empty book, in full. */
  lemma EmptyRow(ts: string)
    ensures WriteSnapshot(ts, EmptyBook) == ts + ",,,,,,,,,,,,,,,,,,,,,,,,,,,,,,,,,,,,,,,," + "\n"
  {
    EmptyBooksSnapshot(ts, EmptyBook);
    CommaRuns();
  }

  /**
   * Two bids, two asks, a partial fill, a cancel and an add at an existing
   * price: the 99.50 level aggregates 10 left of order 2 with 30 of order 5.
   */
  lemma HandlesComplexSequence()
    ensures
      var b1 := AddOrder(EmptyBook, 1, 9900, 10, Bid);
      var b2 := AddOrder(b1, 2, 9950, 15, Bid);
      var b3 := AddOrder(b2, 3, 10050, 20, Ask);
      var b4 := AddOrder(b3, 4, 10100, 25, Ask);
      var b5 := FillOrder(b4, 2, 5);
      var b6 := CancelOrder(b5, 4);
      var b7 := AddOrder(b6, 5, 9950, 30, Bid);
      WriteSnapshot("T6", b7) == "T6,99.50,40,99.00,10,,,,,,,,,,,,,,,,,100.50,20,,,,,,,,,,,,,,,,,,\n"
  {
    var b4 := ComplexOpening();
    var b7 := ComplexClosing(b4);
    SnapshotText("T6", b7);
    TwoLevelSide(b7.bids, true, 9950, 40, 9900, 10);
    OneLevelSide(b7.asks, false, 10050, 20);
    Slots();
    CommaRuns();
    ComplexText();
  }

  /** The four adds of the sequence. */
  lemma ComplexOpening() returns (b4: Book)
    ensures
      var b1 := AddOrder(EmptyBook, 1, 9900, 10, Bid);
      var b2 := AddOrder(b1, 2, 9950, 15, Bid);
      var b3 := AddOrder(b2, 3, 10050, 20, Ask);
      b4 == AddOrder(b3, 4, 10100, 25, Ask)
    ensures b4 == Book(map[1 := Order(9900, 10, Bid), 2 := Order(9950, 15, Bid),
                           3 := Order(10050, 20, Ask), 4 := Order(10100, 25, Ask)],
                       map[9900 := 10, 9950 := 15], map[10050 := 20, 10100 := 25])
  {
    var b1 := Book(map[1 := Order(9900, 10, Bid)], map[9900 := 10], map[]);
    assert AddOrder(EmptyBook, 1, 9900, 10, Bid) == b1;
    var b2 := Book(map[1 := Order(9900, 10, Bid), 2 := Order(9950, 15, Bid)],
                   map[9900 := 10, 9950 := 15], map[]);
    assert AddOrder(b1, 2, 9950, 15, Bid) == b2;
    var b3 := Book(map[1 := Order(9900, 10, Bid), 2 := Order(9950, 15, Bid), 3 := Order(10050, 20, Ask)],
                   map[9900 := 10, 9950 := 15], map[10050 := 20]);
    assert AddOrder(b2, 3, 10050, 20, Ask) == b3;
    b4 := Book(map[1 := Order(9900, 10, Bid), 2 := Order(9950, 15, Bid),
                   3 := Order(10050, 20, Ask), 4 := Order(10100, 25, Ask)],
               map[9900 := 10, 9950 := 15], map[10050 := 20, 10100 := 25]);
    assert AddOrder(b3, 4, 10100, 25, Ask) == b4;
  }

  /** The fill, the cancel and the add at 99.50 that close the sequence. */
  lemma ComplexClosing(b4: Book) returns (b7: Book)
    requires b4 == Book(map[1 := Order(9900, 10, Bid), 2 := Order(9950, 15, Bid),
                            3 := Order(10050, 20, Ask), 4 := Order(10100, 25, Ask)],
                        map[9900 := 10, 9950 := 15], map[10050 := 20, 10100 := 25])
    ensures b7 == AddOrder(CancelOrder(FillOrder(b4, 2, 5), 4), 5, 9950, 30, Bid)
    ensures b7.bids == map[9950 := 40, 9900 := 10] && b7.asks == map[10050 := 20]
  {
    var b5 := ComplexFill(b4);
    var b6 := ComplexCancel(b5);
    b7 := ComplexAdd(b6);
    assert b7.bids == map[9900 := 10, 9950 := 40];
    assert map[9900 := 10, 9950 := 40] == map[9950 := 40, 9900 := 10];
  }

  lemma ComplexFill(b4: Book) returns (b5: Book)
    requires b4 == Book(map[1 := Order(9900, 10, Bid), 2 := Order(9950, 15, Bid),
                            3 := Order(10050, 20, Ask), 4 := Order(10100, 25, Ask)],
                        map[9900 := 10, 9950 := 15], map[10050 := 20, 10100 := 25])
    ensures b5 == FillOrder(b4, 2, 5)
    ensures b5 == Book(map[1 := Order(9900, 10, Bid), 2 := Order(9950, 10, Bid),
                           3 := Order(10050, 20, Ask), 4 := Order(10100, 25, Ask)],
                       map[9900 := 10, 9950 := 10], map[10050 := 20, 10100 := 25])
  {
    b5 := Book(map[1 := Order(9900, 10, Bid), 2 := Order(9950, 10, Bid),
                   3 := Order(10050, 20, Ask), 4 := Order(10100, 25, Ask)],
               map[9900 := 10, 9950 := 10], map[10050 := 20, 10100 := 25]);
    assert FillOrder(b4, 2, 5) == b5;
  }

  lemma ComplexCancel(b5: Book) returns (b6: Book)
    requires b5 == Book(map[1 := Order(9900, 10, Bid), 2 := Order(9950, 10, Bid),
                            3 := Order(10050, 20, Ask), 4 := Order(10100, 25, Ask)],
                        map[9900 := 10, 9950 := 10], map[10050 := 20, 10100 := 25])
    ensures b6 == CancelOrder(b5, 4)
    ensures b6 == Book(map[1 := Order(9900, 10, Bid), 2 := Order(9950, 10, Bid), 3 := Order(10050, 20, Ask)],
                       map[9900 := 10, 9950 := 10], map[10050 := 20])
  {
    b6 := Book(map[1 := Order(9900, 10, Bid), 2 := Order(9950, 10, Bid), 3 := Order(10050, 20, Ask)],
               map[9900 := 10, 9950 := 10], map[10050 := 20]);
    assert CancelOrder(b5, 4) == b6;
  }

  lemma ComplexAdd(b6: Book) returns (b7: Book)
    requires b6 == Book(map[1 := Order(9900, 10, Bid), 2 := Order(9950, 10, Bid), 3 := Order(10050, 20, Ask)],
                        map[9900 := 10, 9950 := 10], map[10050 := 20])
    ensures b7 == AddOrder(b6, 5, 9950, 30, Bid)
    ensures b7 == Book(map[1 := Order(9900, 10, Bid), 2 := Order(9950, 10, Bid), 3 := Order(10050, 20, Ask),
                           5 := Order(9950, 30, Bid)],
                       map[9900 := 10, 9950 := 40], map[10050 := 20])
  {
    b7 := Book(map[1 := Order(9900, 10, Bid), 2 := Order(9950, 10, Bid), 3 := Order(10050, 20, Ask),
                   5 := Order(9950, 30, Bid)],
               map[9900 := 10, 9950 := 40], map[10050 := 20]);
    assert AddOrder(b6, 5, 9950, 30, Bid) == b7;
  }

  lemma ComplexText()
    ensures "T6" + (",99.50,40" + ",99.00,10" + ",,,,,,,,,,,,,,,,") + (",100.50,20" + ",,,,,,,,,,,,,,,,,,") + "\n"
      == "T6,99.50,40,99.00,10,,,,,,,,,,,,,,,,,100.50,20,,,,,,,,,,,,,,,,,,\n"
  {
    ComplexSides();
    ComplexBidsFirst();
    ComplexAsksAfter();
    assert "T6,99.50,40,99.00,10,,,,,,,,,,,,,,,,,100.50,20,,,,,,,,,,,,,,,,,," + "\n"
      == "T6,99.50,40,99.00,10,,,,,,,,,,,,,,,,,100.50,20,,,,,,,,,,,,,,,,,,\n";
  }

  /**
   * The literal steps of the longest row, one per lemma: each compares
   * texts of some seventy characters position by position, so they are
   * kept apart.
   */
  lemma ComplexSides()
    ensures ",99.50,40" + ",99.00,10" + ",,,,,,,,,,,,,,,," == ",99.50,40,99.00,10,,,,,,,,,,,,,,,,"
    ensures ",100.50,20" + ",,,,,,,,,,,,,,,,,," == ",100.50,20,,,,,,,,,,,,,,,,,,"
  {
    assert ",99.50,40" + ",99.00,10" == ",99.50,40,99.00,10";
  }

  lemma ComplexBidsFirst()
    ensures "T6" + ",99.50,40,99.00,10,,,,,,,,,,,,,,,," == "T6,99.50,40,99.00,10,,,,,,,,,,,,,,,,"
  {
  }

  lemma ComplexAsksAfter()
    ensures "T6,99.50,40,99.00,10,,,,,,,,,,,,,,,," + ",100.50,20,,,,,,,,,,,,,,,,,,"
      == "T6,99.50,40,99.00,10,,,,,,,,,,,,,,,,,100.50,20,,,,,,,,,,,,,,,,,,"
  {
  }

  /** A reset clears everything: the row is the timestamp and 40 commas. */
  lemma HandlesReset()
    ensures ResetBook(AddOrder(EmptyBook, 101, 10050, 10, Bid)) == EmptyBook
    ensures WriteSnapshot("T7", ResetBook(AddOrder(EmptyBook, 101, 10050, 10, Bid)))
      == "T7,,,,,,,,,,,,,,,,,,,,,,,,,,,,,,,,,,,,,,,,\n"
  {
    EmptyRow("T7");
    ResetText();
  }

  lemma ResetText()
    ensures "T7" + ",,,,,,,,,,,,,,,,,,,,,,,,,,,,,,,,,,,,,,,," + "\n" == "T7,,,,,,,,,,,,,,,,,,,,,,,,,,,,,,,,,,,,,,,,\n"
  {
    assert "T7" + ",,,,,,,,,,,,,,,,,,,,,,,,,,,,,,,,,,,,,,,," == "T7,,,,,,,,,,,,,,,,,,,,,,,,,,,,,,,,,,,,,,,,";
    assert "T7,,,,,,,,,,,,,,,,,,,,,,,,,,,,,,,,,,,,,,,," + "\n" == "T7,,,,,,,,,,,,,,,,,,,,,,,,,,,,,,,,,,,,,,,,\n";
  }

}
