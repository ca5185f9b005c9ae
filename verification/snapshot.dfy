/**
 * The MBP-10 snapshot row: the event's timestamp, then the ten best bid
 * levels highest price first, then the ten best ask levels lowest price
 * first, each level as a price and a size field and each missing level as
 * two empty fields.
 */
module Snapshot {
  import opened Text
  import opened Numerals
  import opened PriceLevels
  import opened Engine

  /** Levels shown per side. */
  const Depth := 10

  /** Fields in a row: the timestamp and a price and a size per slot. */
  const RowFields := 1 + 2 * Depth + 2 * Depth

  datatype Slot = Vacant | Level(price: int, size: int)

  /** Prices that appear in some slot. */
  function ShownPrices(slots: seq<Slot>): set<int> {
    set i | 0 <= i < |slots| && slots[i].Level? :: slots[i].price
  }

  /**
   * The first `Depth` levels of one side in its iteration order, then
   * vacant slots.
   */
  function TopSlots(levels: Levels, descending: bool): (slots: seq<Slot>)
    ensures |slots| == Depth
  {
    var ranked := Ranked(levels.Keys, descending);
    seq(Depth, i requires 0 <= i < Depth =>
      if i < |ranked| then Level(ranked[i], levels[ranked[i]]) else Vacant)
  }

  /**
   * What the slots show: a slot is filled exactly when the side has that
   * many levels, a filled slot shows a level of the side with its
   * aggregate, and the shown prices run strictly in side order ahead of
   * every vacant slot.
   */
  lemma TopSlotsShape(levels: Levels, descending: bool)
    ensures var slots := TopSlots(levels, descending);
      && (forall i :: 0 <= i < Depth ==> (slots[i].Level? <==> i < |levels|))
      && (forall i :: 0 <= i < Depth && slots[i].Level? ==>
            slots[i].price in levels && slots[i].size == levels[slots[i].price])
      && (forall i, j :: 0 <= i < j < Depth && slots[j].Level? ==>
            slots[i].Level? && Better(descending, slots[i].price, slots[j].price))
  {
    var ranked := Ranked(levels.Keys, descending);
    assert |ranked| == |levels|;
  }

  /**
   * The shown levels are the best ones: a level left out is worse than
   * every shown price, and then all `Depth` slots are taken.
   */
  lemma TopSlotsAreBest(levels: Levels, descending: bool)
    ensures var slots := TopSlots(levels, descending);
      forall p :: p in levels && p !in ShownPrices(slots) ==>
        forall i :: 0 <= i < Depth ==> slots[i].Level? && Better(descending, slots[i].price, p)
  {
    var slots := TopSlots(levels, descending);
    var ranked := Ranked(levels.Keys, descending);
    forall i | 0 <= i < Depth && i < |ranked|
      ensures ranked[i] in ShownPrices(slots)
    {
      assert slots[i].Level? && slots[i].price == ranked[i];
    }
    forall p | p in levels && p !in ShownPrices(slots)
      ensures forall i :: 0 <= i < Depth ==> slots[i].Level? && Better(descending, slots[i].price, p)
    {
      var k :| 0 <= k < |ranked| && ranked[k] == p;
      assert k >= Depth;
      forall i | 0 <= i < Depth
        ensures slots[i].Level? && Better(descending, slots[i].price, p)
      {
        assert slots[i] == Level(ranked[i], levels[ranked[i]]);
      }
    }
  }

  /** A slot as two fields: price with two decimals and size, or two empties. */
  function SlotFields(slot: Slot): (fields: seq<string>)
    ensures |fields| == 2
  {
    match slot
    case Vacant => ["", ""]
    case Level(price, size) => [PriceText(price), IntText(size)]
  }

  function SlotsFields(slots: seq<Slot>): (fields: seq<string>)
    ensures |fields| == 2 * |slots|
  {
    if slots == [] then [] else SlotFields(slots[0]) + SlotsFields(slots[1..])
  }

  /** Slot `i` occupies fields `2i` and `2i + 1`. */
  lemma {:induction false} SlotsFieldsAt(slots: seq<Slot>, i: nat)
    requires i < |slots|
    ensures SlotsFields(slots)[2 * i] == SlotFields(slots[i])[0]
    ensures SlotsFields(slots)[2 * i + 1] == SlotFields(slots[i])[1]
    decreases i
  {
    var head := SlotFields(slots[0]);
    var rest := SlotsFields(slots[1..]);
    assert SlotsFields(slots) == head + rest;
    PairAt(head, rest, i);
    if i > 0 {
      SlotsFieldsAt(slots[1..], i - 1);
      assert slots[1..][i - 1] == slots[i];
    }
  }

  /** Indexing past a leading pair. */
  lemma PairAt(head: seq<string>, rest: seq<string>, i: nat)
    requires |head| == 2 && 2 * i + 1 < 2 + |rest|
    ensures i == 0 ==> (head + rest)[0] == head[0] && (head + rest)[1] == head[1]
    ensures i > 0 ==> (head + rest)[2 * i] == rest[2 * i - 2] && (head + rest)[2 * i + 1] == rest[2 * i - 1]
  {
  }

  /** The fields of the row written for `ts` and the current books. */
  function SnapshotFields(ts: string, book: Book): (fields: seq<string>)
    ensures |fields| == RowFields
    ensures fields[0] == ts
  {
    [ts] + SlotsFields(TopSlots(book.bids, true)) + SlotsFields(TopSlots(book.asks, false))
  }

  /**
   * One output line: the fields separated by commas, then a newline. The
   * line opens with the timestamp and the comma after it.
   */
  function WriteSnapshot(ts: string, book: Book): (line: string)
    ensures |line| > |ts| + 1 && line[..|ts| + 1] == ts + ","
    ensures line[|line| - 1] == '\n'
  {
    var fields := SnapshotFields(ts, book);
    JoinFirst(ts, fields[1..]);
    assert fields == [ts] + fields[1..];
    Join(fields, ',') + "\n"
  }

  /**
   * Where each level lands: bid slot `i` in fields `1 + 2i` and `2 + 2i`,
   * ask slot `i` in fields `21 + 2i` and `22 + 2i`.
   */
  lemma SnapshotLayout(ts: string, book: Book, i: nat)
    requires i < Depth
    ensures SnapshotFields(ts, book)[1 + 2 * i] == SlotFields(TopSlots(book.bids, true)[i])[0]
    ensures SnapshotFields(ts, book)[2 + 2 * i] == SlotFields(TopSlots(book.bids, true)[i])[1]
    ensures SnapshotFields(ts, book)[1 + 2 * Depth + 2 * i] == SlotFields(TopSlots(book.asks, false)[i])[0]
    ensures SnapshotFields(ts, book)[2 + 2 * Depth + 2 * i] == SlotFields(TopSlots(book.asks, false)[i])[1]
  {
    RowLayout(ts, TopSlots(book.bids, true), TopSlots(book.asks, false), i);
  }

  /** The same placement for any ten bid and ten ask slots. */
  lemma RowLayout(ts: string, bids: seq<Slot>, asks: seq<Slot>, i: nat)
    requires |bids| == Depth && |asks| == Depth && i < Depth
    ensures ([ts] + SlotsFields(bids) + SlotsFields(asks))[1 + 2 * i] == SlotFields(bids[i])[0]
    ensures ([ts] + SlotsFields(bids) + SlotsFields(asks))[2 + 2 * i] == SlotFields(bids[i])[1]
    ensures ([ts] + SlotsFields(bids) + SlotsFields(asks))[1 + 2 * Depth + 2 * i] == SlotFields(asks[i])[0]
    ensures ([ts] + SlotsFields(bids) + SlotsFields(asks))[2 + 2 * Depth + 2 * i] == SlotFields(asks[i])[1]
  {
    SlotsFieldsAt(bids, i);
    SlotsFieldsAt(asks, i);
    FieldsAround(ts, SlotsFields(bids), SlotsFields(asks), 2 * i);
    FieldsAround(ts, SlotsFields(bids), SlotsFields(asks), 2 * i + 1);
  }

  /** Field `k` of each side lands after the timestamp and the sides before it. */
  lemma FieldsAround(ts: string, a: seq<string>, b: seq<string>, k: nat)
    requires k < |a| && k < |b|
    ensures ([ts] + a + b)[1 + k] == a[k]
    ensures ([ts] + a + b)[1 + |a| + k] == b[k]
  {
  }

  lemma SlotFieldsNoComma(slot: Slot)
    ensures forall k :: 0 <= k < 2 ==> ',' !in SlotFields(slot)[k]
  {
    match slot
    case Vacant =>
    case Level(price, size) =>
      var p := PriceText(price);
      var s := IntText(size);
      PriceTextChars(price);
      IntTextChars(size);
      assert forall k :: 0 <= k < |p| ==> p[k] != ',';
      assert forall k :: 0 <= k < |s| ==> s[k] != ',';
  }

  lemma {:induction false} SlotsFieldsNoComma(slots: seq<Slot>)
    ensures forall k :: 0 <= k < |SlotsFields(slots)| ==> ',' !in SlotsFields(slots)[k]
    decreases |slots|
  {
    if slots != [] {
      SlotFieldsNoComma(slots[0]);
      SlotsFieldsNoComma(slots[1..]);
    }
  }

  /** Only the timestamp field can hold a comma. */
  lemma SnapshotFieldsNoComma(ts: string, book: Book)
    ensures forall k :: 1 <= k < RowFields ==> ',' !in SnapshotFields(ts, book)[k]
  {
    SlotsFieldsNoComma(TopSlots(book.bids, true));
    SlotsFieldsNoComma(TopSlots(book.asks, false));
    AfterFirstNoComma(ts, SlotsFields(TopSlots(book.bids, true)), SlotsFields(TopSlots(book.asks, false)));
  }

  lemma AfterFirstNoComma(ts: string, a: seq<string>, b: seq<string>)
    requires forall k :: 0 <= k < |a| ==> ',' !in a[k]
    requires forall k :: 0 <= k < |b| ==> ',' !in b[k]
    ensures forall k :: 1 <= k < |[ts] + a + b| ==> ',' !in ([ts] + a + b)[k]
  {
    var fields := [ts] + a + b;
    forall k | 1 <= k < |fields|
      ensures ',' !in fields[k]
    {
      if k <= |a| {
        assert fields[k] == a[k - 1];
      } else {
        assert fields[k] == b[k - 1 - |a|];
      }
    }
  }

  /**
   * Splitting a written row (without its newline) at commas recovers its 41
   * fields, provided the timestamp has no comma, as is so for a timestamp
   * that came out of a comma-split input line.
   */
  lemma SnapshotSplits(ts: string, book: Book)
    requires ',' !in ts
    ensures var line := WriteSnapshot(ts, book);
      && line[|line| - 1] == '\n'
      && Split(line[..|line| - 1], ',') == SnapshotFields(ts, book)
      && |Split(line[..|line| - 1], ',')| == RowFields
  {
    var fields := SnapshotFields(ts, book);
    var line := WriteSnapshot(ts, book);
    SnapshotFieldsNoComma(ts, book);
    assert line[..|line| - 1] == Join(fields, ',');
    SplitJoin(fields, ',');
  }

  /** A row holds its timestamp's commas plus exactly 40 separators. */
  lemma SnapshotCommas(ts: string, book: Book)
    ensures Occurrences(WriteSnapshot(ts, book), ',') == Occurrences(ts, ',') + RowFields - 1
  {
    var fields := SnapshotFields(ts, book);
    SnapshotFieldsNoComma(ts, book);
    JoinOccurrences(fields, ',');
    SumOccurrencesFirst(fields, ',');
    var line := WriteSnapshot(ts, book);
    assert multiset(line) == multiset(Join(fields, ',')) + multiset("\n");
  }

  /** When only the first field may hold `d`, the fields hold as many as it. */
  lemma SumOccurrencesFirst(tokens: seq<string>, d: char)
    requires |tokens| >= 1
    requires forall k :: 1 <= k < |tokens| ==> d !in tokens[k]
    ensures SumOccurrences(tokens, d) == Occurrences(tokens[0], d)
  {
    NoOccurrences(tokens[1..], d);
  }

  lemma {:induction false} NoOccurrences(tokens: seq<string>, d: char)
    requires forall k :: 0 <= k < |tokens| ==> d !in tokens[k]
    ensures SumOccurrences(tokens, d) == 0
    decreases |tokens|
  {
    if tokens != [] {
      assert d !in multiset(tokens[0]);
      NoOccurrences(tokens[1..], d);
    }
  }

  /** `n` commas. */
  function Commas(n: nat): (s: string)
    ensures |s| == n && forall k :: 0 <= k < n ==> s[k] == ','
  {
    if n == 0 then [] else Commas(n - 1) + [',']
  }

  /**
   * With both sides empty the row is the timestamp followed by 40 commas:
   * all twenty slots are vacant.
   */
  lemma EmptyBooksSnapshot(ts: string, book: Book)
    requires book.bids == map[] && book.asks == map[]
    ensures WriteSnapshot(ts, book) == ts + Commas(RowFields - 1) + "\n"
  {
    var fields := SnapshotFields(ts, book);
    forall k | 1 <= k < RowFields
      ensures fields[k] == ""
    {
      if k <= 2 * Depth {
        var i := (k - 1) / 2;
        SnapshotLayout(ts, book, i);
        TopSlotAt(book.bids, true, i);
      } else {
        var i := (k - 1 - 2 * Depth) / 2;
        SnapshotLayout(ts, book, i);
        TopSlotAt(book.asks, false, i);
      }
    }
    JoinEmpties(fields, RowFields - 1);
  }

  /** Joining a first field and `n` empty ones. */
  lemma {:induction false} JoinEmpties(fields: seq<string>, n: nat)
    requires |fields| == n + 1
    requires forall k :: 1 <= k < |fields| ==> fields[k] == ""
    ensures Join(fields, ',') == fields[0] + Commas(n)
    decreases n
  {
    if n > 0 {
      var init := fields[..n];
      JoinEmpties(init, n - 1);
      JoinSnoc(init, "", ',');
      assert init + [""] == fields;
    }
  }

  /** Joining with one more field appends a separator and that field. */
  lemma {:induction false} JoinSnoc(tokens: seq<string>, last: string, d: char)
    requires |tokens| >= 1
    ensures Join(tokens + [last], d) == Join(tokens, d) + [d] + last
    decreases |tokens|
  {
    if |tokens| > 1 {
      JoinSnoc(tokens[1..], last, d);
      assert (tokens + [last])[1..] == tokens[1..] + [last];
    } else {
      assert (tokens + [last])[1..] == [last];
    }
  }

  // ---------------------------------------------------------------------
  // The row as the program streams it out, slot by slot.
  // ---------------------------------------------------------------------

  /** What the program writes for one slot: ",price,size" or ",,". */
  function SlotText(slot: Slot): string {
    match slot
    case Vacant => ",,"
    case Level(price, size) => "," + PriceText(price) + "," + IntText(size)
  }

  /** What the program writes for a run of slots. */
  function SlotsText(slots: seq<Slot>): string {
    Flatten(Map(SlotText, slots))
  }

  lemma SlotsTextAppend(a: seq<Slot>, b: seq<Slot>)
    ensures SlotsText(a + b) == SlotsText(a) + SlotsText(b)
  {
    MapAppend(SlotText, a, b);
    FlattenAppend(Map(SlotText, a), Map(SlotText, b));
  }

  lemma SlotsTextOne(slot: Slot)
    ensures SlotsText([slot]) == SlotText(slot)
  {
    assert [slot][1..] == [];
    assert Map(SlotText, [slot]) == [SlotText(slot)];
    FlattenOne(SlotText(slot));
  }

  lemma SlotsTextEmpty()
    ensures SlotsText([]) == []
  {
    assert Map(SlotText, []) == [];
  }

  lemma SlotsTextSnoc(slots: seq<Slot>, slot: Slot)
    ensures SlotsText(slots + [slot]) == SlotsText(slots) + SlotText(slot)
  {
    SlotsTextAppend(slots, [slot]);
    SlotsTextOne(slot);
  }

  lemma SlotsTextCons(slots: seq<Slot>)
    requires slots != []
    ensures SlotsText(slots) == SlotText(slots[0]) + SlotsText(slots[1..])
  {
    assert slots == [slots[0]] + slots[1..];
    SlotsTextAppend([slots[0]], slots[1..]);
    SlotsTextOne(slots[0]);
  }

  /** Each field written after a comma, one after another. */
  function CommaPrefixed(fields: seq<string>): string {
    if fields == [] then [] else [','] + fields[0] + CommaPrefixed(fields[1..])
  }

  lemma {:induction false} JoinFirst(t: string, rest: seq<string>)
    ensures Join([t] + rest, ',') == t + CommaPrefixed(rest)
    decreases |rest|
  {
    if rest != [] {
      JoinFirst(rest[0], rest[1..]);
      assert ([t] + rest)[1..] == [rest[0]] + rest[1..];
    }
  }

  lemma {:induction false} CommaPrefixedAppend(a: seq<string>, b: seq<string>)
    ensures CommaPrefixed(a + b) == CommaPrefixed(a) + CommaPrefixed(b)
    decreases |a|
  {
    if a == [] {
      assert [] + b == b;
    } else {
      CommaPrefixedAppend(a[1..], b);
      assert (a + b)[0] == a[0];
      assert (a + b)[1..] == a[1..] + b;
      ConcatAssoc([','] + a[0], CommaPrefixed(a[1..]), CommaPrefixed(b));
    }
  }

  lemma {:induction false} SlotsTextFields(slots: seq<Slot>)
    ensures CommaPrefixed(SlotsFields(slots)) == SlotsText(slots)
    decreases |slots|
  {
    if slots == [] {
      SlotsTextEmpty();
    } else {
      var rest := slots[1..];
      SlotsTextFields(rest);
      SlotsTextCons(slots);
      assert SlotsFields(slots) == SlotFields(slots[0]) + SlotsFields(rest);
      CommaPrefixedAppend(SlotFields(slots[0]), SlotsFields(rest));
      SlotTextFields(slots[0]);
    }
  }

  lemma SlotTextFields(slot: Slot)
    ensures CommaPrefixed(SlotFields(slot)) == SlotText(slot)
  {
    var f := SlotFields(slot);
    var rest := f[1..];
    assert rest[1..] == [];
    assert CommaPrefixed(rest) == [','] + f[1] + CommaPrefixed([]);
    assert CommaPrefixed(f) == [','] + f[0] + [','] + f[1];
  }

  /**
   * The joined row is what the program streams: the timestamp, the ten bid
   * slots, the ten ask slots, then a newline.
   */
  lemma SnapshotText(ts: string, book: Book)
    ensures WriteSnapshot(ts, book)
      == ts + SlotsText(TopSlots(book.bids, true)) + SlotsText(TopSlots(book.asks, false)) + "\n"
  {
    var bids := TopSlots(book.bids, true);
    var asks := TopSlots(book.asks, false);
    JoinRow(ts, SlotsFields(bids), SlotsFields(asks));
    SlotsTextFields(bids);
    SlotsTextFields(asks);
  }

  /** A first field and two runs of fields, joined at commas. */
  lemma JoinRow(ts: string, a: seq<string>, b: seq<string>)
    ensures Join([ts] + a + b, ',') == ts + CommaPrefixed(a) + CommaPrefixed(b)
  {
    assert [ts] + a + b == [ts] + (a + b);
    JoinFirst(ts, a + b);
    CommaPrefixedAppend(a, b);
    ConcatAssoc(ts, CommaPrefixed(a), CommaPrefixed(b));
  }

  /** Writing one more slot extends the text by that slot's text. */
  lemma SlotsTextStep(slots: seq<Slot>, i: nat)
    requires i < |slots|
    ensures SlotsText(slots[..i + 1]) == SlotsText(slots[..i]) + SlotText(slots[i])
  {
    assert slots[..i + 1] == slots[..i] + [slots[i]];
    SlotsTextSnoc(slots[..i], slots[i]);
  }

  /** The writer's step: a line holding the first `i` slots, plus slot `i`. */
  lemma AppendStep(line: string, slots: seq<Slot>, i: nat, written: string)
    requires i < |slots| && written == line + SlotsText(slots[..i])
    ensures written + SlotText(slots[i]) == line + SlotsText(slots[..i + 1])
  {
    SlotsTextStep(slots, i);
    ConcatAssoc(line, SlotsText(slots[..i]), SlotText(slots[i]));
  }

  lemma TopSlotAt(levels: Levels, descending: bool, i: nat)
    requires i < Depth
    ensures var ranked := Ranked(levels.Keys, descending);
      TopSlots(levels, descending)[i] == if i < |ranked| then Level(ranked[i], levels[ranked[i]]) else Vacant
  {
  }

  /**
   * The level loop of the writer: walks the side's prices in order and
   * writes ",price,size" for each, stopping after `Depth` of them.
   */
  method AppendLevels(line: string, slots: seq<Slot>, ranked: seq<int>, levels: Levels)
    returns (r: string, count: nat)
    requires |slots| == Depth
    requires forall i :: 0 <= i < Depth && i < |ranked| ==>
      ranked[i] in levels && slots[i] == Level(ranked[i], levels[ranked[i]])
    ensures count == if |ranked| < Depth then |ranked| else Depth
    ensures r == line + SlotsText(slots[..count])
  {
    r := line;
    count := 0;
    assert slots[..0] == [];
    SlotsTextEmpty();
    while count < |ranked| && count < Depth
      invariant count <= Depth && count <= |ranked|
      invariant r == line + SlotsText(slots[..count])
    {
      var price := ranked[count];
      var level := Level(price, levels[price]);
      assert slots[count] == level;
      AppendStep(line, slots, count, r);
      r := r + SlotText(level);
      count := count + 1;
    }
  }

  /** The padding loop of the writer: ",," for every slot left over. */
  method AppendPadding(line: string, slots: seq<Slot>, count: nat, written: string) returns (r: string)
    requires count <= |slots|
    requires forall i :: count <= i < |slots| ==> slots[i] == Vacant
    requires written == line + SlotsText(slots[..count])
    ensures r == line + SlotsText(slots)
  {
    r := written;
    var i := count;
    while i < |slots|
      invariant count <= i <= |slots|
      invariant r == line + SlotsText(slots[..i])
    {
      AppendStep(line, slots, i, r);
      r := r + SlotText(Vacant);
      i := i + 1;
    }
    assert slots[..i] == slots;
  }

  /** Append the slots of one side: its first levels, then padding. */
  method WriteSide(line: string, levels: Levels, descending: bool) returns (r: string)
    ensures r == line + SlotsText(TopSlots(levels, descending))
  {
    var slots := TopSlots(levels, descending);
    var ranked := Ranked(levels.Keys, descending);
    forall i | 0 <= i < Depth
      ensures slots[i] == if i < |ranked| then Level(ranked[i], levels[ranked[i]]) else Vacant
    {
      TopSlotAt(levels, descending, i);
    }
    var written, count := AppendLevels(line, slots, ranked, levels);
    r := AppendPadding(line, slots, count, written);
  }

  /**
   * The program's snapshot writer: the timestamp, each side's best levels
   * with padding, and a newline; it produces exactly the joined row.
   */
  method WriteSnapshotRow(ts: string, book: Book) returns (line: string)
    ensures line == WriteSnapshot(ts, book)
  {
    line := WriteSide(ts, book.bids, true);
    line := WriteSide(line, book.asks, false);
    line := line + "\n";
    SnapshotText(ts, book);
  }

  /** The levels of `listing`, in that order, as filled slots. */
  function Listed(levels: Levels, listing: seq<int>): (slots: seq<Slot>)
    requires forall i :: 0 <= i < |listing| ==> listing[i] in levels
    ensures |slots| == |listing|
  {
    seq(|listing|, i requires 0 <= i < |listing| => Level(listing[i], levels[listing[i]]))
  }

  function Vacancies(n: nat): (slots: seq<Slot>)
    ensures |slots| == n
  {
    seq(n, i => Vacant)
  }

  /** `n` vacant slots are written as `2n` commas. */
  lemma {:induction false} VacanciesText(n: nat)
    ensures SlotsText(Vacancies(n)) == Commas(2 * n)
    decreases n
  {
    if n == 0 {
      SlotsTextEmpty();
    } else {
      VacanciesText(n - 1);
      assert Vacancies(n) == Vacancies(n - 1) + [Vacant];
      SlotsTextSnoc(Vacancies(n - 1), Vacant);
      assert Commas(2 * n) == Commas(2 * (n - 1)) + ",,";
    }
  }

  /**
   * A side whose prices, best first, are exactly `listing` (at most ten of
   * them) shows those levels in order and leaves the remaining slots vacant.
   */
  lemma TopSlotsOf(levels: Levels, descending: bool, listing: seq<int>)
    requires Lists(listing, levels.Keys, descending) && |listing| <= Depth
    ensures TopSlots(levels, descending) == Listed(levels, listing) + Vacancies(Depth - |listing|)
  {
    RankedUnique(listing, levels.Keys, descending);
    var slots := TopSlots(levels, descending);
    var expected := Listed(levels, listing) + Vacancies(Depth - |listing|);
    forall i | 0 <= i < Depth
      ensures slots[i] == expected[i]
    {
      TopSlotAt(levels, descending, i);
    }
  }

  /** The text of such a side: its levels, then two commas per vacant slot. */
  lemma SideText(levels: Levels, descending: bool, listing: seq<int>)
    requires Lists(listing, levels.Keys, descending) && |listing| <= Depth
    ensures SlotsText(TopSlots(levels, descending))
      == SlotsText(Listed(levels, listing)) + Commas(2 * Depth - 2 * |listing|)
  {
    var n := Depth - |listing|;
    TopSlotsOf(levels, descending, listing);
    PaddedText(TopSlots(levels, descending), Listed(levels, listing), n);
  }

  lemma PaddedText(slots: seq<Slot>, shown: seq<Slot>, n: nat)
    requires |shown| <= Depth && n == Depth - |shown| && slots == shown + Vacancies(n)
    ensures SlotsText(slots) == SlotsText(shown) + Commas(2 * Depth - 2 * |shown|)
  {
    SlotsTextAppend(shown, Vacancies(n));
    VacanciesText(n);
  }

  /**
   * The row of a book whose sides list, best first, as `bidList` and
   * `askList`: the timestamp, the shown bid levels, commas for the vacant
   * bid slots, then the same for the asks, then a newline.
   */
  lemma RowText(ts: string, book: Book, bidList: seq<int>, askList: seq<int>)
    requires Lists(bidList, book.bids.Keys, true) && |bidList| <= Depth
    requires Lists(askList, book.asks.Keys, false) && |askList| <= Depth
    ensures WriteSnapshot(ts, book)
      == ts + (SlotsText(Listed(book.bids, bidList)) + Commas(2 * Depth - 2 * |bidList|))
         + (SlotsText(Listed(book.asks, askList)) + Commas(2 * Depth - 2 * |askList|)) + "\n"
  {
    SnapshotText(ts, book);
    SideText(book.bids, true, bidList);
    SideText(book.asks, false, askList);
  }
}
