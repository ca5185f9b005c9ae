# MBO to MBP-10 order-book reconstruction, modelled in Dafny

The program reads a market-by-order (MBO) event file. Each event is an add,
cancel, fill or reset. It keeps an order ledger and two aggregated
price-level books, and after every applicable event it writes one
market-by-price row with the ten best bid and ten best ask levels (MBP-10).
The test suite contains an `OrderBook` class that restates the same rules,
plus seven concrete scenarios.

The model has seven modules:

- `Text` (`text.dfy`) covers the comma splitter `splitString`. A reference `Split` is tied to the loop `SplitString` and to `Join`.
- `Numerals` (`numerals.dfy`) renders prices as exact two-decimal text. Prices are held as integer ticks of 0.01. Sizes are rendered as decimal integers. Both renderings have a read-back function and a round-trip lemma.
- `PriceLevels` (`levels.dfy`) models one side of the book as a `map<int, int>` from price to aggregate. It covers the `updateBook` adjustment and the side's iteration order. `Ranked` is the unique strictly ordered listing of the keys: highest first for bids, lowest first for asks.
- `Engine` (`engine.dfy`) holds the ledger and both sides in one `Book` value. It covers add, cancel, fill and reset with their no-op guards. It also states ledger/book consistency and shows when events preserve it.
- `Snapshot` (`snapshot.dfy`) covers the MBP-10 row. Slots are derived from each side's ranking. The row exists both as a list of 41 fields and as the text the two loops of `writeSnapshot` stream out, and the two are proved equal.
- `Reconstruction` (`replay.dfy`) covers the main loop. It splits each line, skips short rows, skips a leading reset, decodes the action, applies it and writes a snapshot. It also builds the output file (the header plus the rows).
- `Scenarios` (`scenarios.dfy`) proves the seven test-suite scenarios character for character.

The global mutable state of the program becomes an explicit `Session` value
(the `Book` and the first-event flag) threaded through `ProcessRow`.

Four behaviours of the code are worth stating on their own, and the model
follows each of them:

- **Unrecognised action code.** A long-enough row whose action is not `R`, `A`, `C` or `F` changes nothing but still writes a snapshot (`src/reconstruction_aayush.cpp:155-189`): the `if` chain falls through to `writeSnapshot`.
- **Leading reset.** A first long-enough row that is `R` is skipped without clearing and writes no row (`src/reconstruction_aayush.cpp:142-145`).
- **Short rows.** A row with fewer than 11 fields changes nothing, writes nothing and does not use up the first-event flag; only a row that passes the length guard clears it (`src/reconstruction_aayush.cpp:137`, `:146`).
- **Add with an unknown side.** An order whose side is neither `B` nor `A` is stored in the ledger (`src/reconstruction_aayush.cpp:166`) but never reaches either book (`src/reconstruction_aayush.cpp:31-43`).

## Model

| member | source | states |
|---|---|---|
| Text.FindMeaning | src/reconstruction_aayush.cpp:91-95 | `find(delimiter, start)`: the first delimiter at or after `start`, or -1 (npos) exactly when no delimiter remains |
| Text.SplitString | src/reconstruction_aayush.cpp:88-99 | the splitter loop returns one token more than the line has delimiters, no token holds the delimiter, joining the tokens gives the line back, and the result equals the reference split |
| Text.SplitFields | src/reconstruction_aayush.cpp:88-99 | for the reference split: token count = delimiter count + 1, tokens are delimiter-free, and `Join(Split(s)) == s` |
| Text.SplitJoin | src/reconstruction_aayush.cpp:88-99 | the other direction of the round trip: splitting the join of delimiter-free tokens gives the tokens back |
| Text.JoinOccurrences | src/reconstruction_aayush.cpp:88-99 | a join of n tokens holds n - 1 delimiters plus those inside the tokens |
| Numerals.NatText | src/reconstruction_aayush.cpp:57 | a size is written as decimal digits with no leading zero except for 0 itself |
| Numerals.NatTextValue | src/reconstruction_aayush.cpp:57 | reading the digits of a written natural number gives the number back |
| Numerals.IntTextValue | src/reconstruction_aayush.cpp:57 | a written size (with a minus sign when negative) is well formed and reads back to the same integer |
| Numerals.PriceText | src/reconstruction_aayush.cpp:57 | a price is written with at least four characters (whole digits, point, two decimals) |
| Numerals.PriceTextChars | src/reconstruction_aayush.cpp:57 | a written price holds only digits, '-' and '.', so never a comma |
| Numerals.IntTextChars | src/reconstruction_aayush.cpp:57 | a written size holds only digits and '-', so never a comma |
| Numerals.PriceTextValue | src/reconstruction_aayush.cpp:57 | a price written with `fixed`/`setprecision(2)` has the form [-]digits.dd and reads back to the same number of ticks |
| Numerals.HundredthsTextValue | src/reconstruction_aayush.cpp:57 | the two-decimal text of a non-negative tick count is well formed and reads back to the same count |
| PriceLevels.Adjust | src/reconstruction_aayush.cpp:31-43 | after adding delta at price the level is present exactly when old aggregate + delta > 0 and then holds that total; an absent price with delta ≤ 0 stays absent; every other price is unchanged; all-positive levels stay all-positive |
| PriceLevels.AdjustedAtUnique | src/reconstruction_aayush.cpp:31-43 | the adjustment property fixes the resulting side completely, so `Adjust` is the only side meeting it |
| PriceLevels.Best | src/reconstruction_aayush.cpp:20-23 | the best price of a non-empty side is in the side and beats every other price in the side's order |
| PriceLevels.Ranked | src/reconstruction_aayush.cpp:20-23 | the side's iteration order lists every key exactly once, strictly best-first (descending for bids, ascending for asks) |
| PriceLevels.RankedUnique | src/reconstruction_aayush.cpp:20-23 | any strictly ordered listing of exactly the side's keys is that iteration order |
| Engine.SideOf | src/reconstruction_aayush.cpp:31-43 | side code 'B' is the bid side and 'A' the ask side, both iff; any other code is kept as an unrecognised side |
| Engine.UpdateBook | test/test_orderbook.cpp:75-83 | only the entry at price on the named side changes (as `Adjust` says); the other side and the ledger are unchanged; an unrecognised side changes nothing; no level of either side becomes ≤ 0 |
| Engine.AddOrder | test/test_orderbook.cpp:19-24 | with id 0 or size ≤ 0 nothing changes; otherwise the order is stored under its id (replacing a live one), other ledger entries are untouched, and its size is added to its (side, price) level; well-formedness is kept |
| Engine.CancelOrder | test/test_orderbook.cpp:26-32 | an unknown id is a no-op; otherwise the order leaves the ledger and its whole remaining size comes off its level, the other side unchanged |
| Engine.FillOrder | test/test_orderbook.cpp:34-43 | an unknown id or a size ≤ 0 is a no-op; otherwise the level drops by the full fill size, the order stays iff fill < remaining and then holds remaining − fill, and other ledger entries are untouched |
| Engine.ResetBook | test/test_orderbook.cpp:45-49 | reset empties the ledger and both sides |
| Engine.Apply | src/reconstruction_aayush.cpp:155-187 | an unrecognised action changes nothing; every event keeps levels positive and remaining sizes positive |
| Engine.AddKeepsConsistent | src/reconstruction_aayush.cpp:159-168 | an add with a fresh id keeps every level equal to the total of the ledger orders at that side and price |
| Engine.CancelKeepsConsistent | src/reconstruction_aayush.cpp:169-174 | a cancel keeps every level equal to the total of its resting orders |
| Engine.FillKeepsConsistent | src/reconstruction_aayush.cpp:175-186 | a fill no larger than the order's remaining size keeps every level equal to the total of its resting orders |
| Engine.ApplyKeepsConsistent | src/reconstruction_aayush.cpp:155-187 | every event respecting the fresh-id and fill-bound assumptions, and any reset or unrecognised action, keeps the books consistent with the ledger |
| Engine.DuplicateAddOvercounts | src/reconstruction_aayush.cpp:165-168 | re-adding a live id double counts it in its level, so the fresh-id assumption is needed |
| Engine.OverfillUndercounts | src/reconstruction_aayush.cpp:179-186 | a fill beyond the order's remaining size takes the surplus from other orders' share of the level, so the fill bound is needed |
| Snapshot.TopSlots | src/reconstruction_aayush.cpp:53-77 | each side shows exactly ten slots, the side's first ten levels in its iteration order then vacant slots; what those slots hold is stated by `TopSlotsShape` and `TopSlotsAreBest` |
| Snapshot.TopSlotsShape | src/reconstruction_aayush.cpp:54-64 | of the ten slots, slot i is filled iff the side has more than i levels; a filled slot shows a level of the side with its aggregate; filled prices are strictly best-first and come before all vacant slots |
| Snapshot.TopSlotsAreBest | src/reconstruction_aayush.cpp:55-60 | any level left out is worse than every one of the ten shown prices, so the shown levels are the side's best min(10, L) |
| Snapshot.SnapshotFields | src/reconstruction_aayush.cpp:50-80 | a row has 41 fields and the first is the timestamp |
| Snapshot.WriteSnapshot | src/reconstruction_aayush.cpp:50-80 | a written row opens with the timestamp and a comma and ends with a newline; its fields, their placement and its text are stated by the `Snapshot*` lemmas below |
| Snapshot.SnapshotLayout | src/reconstruction_aayush.cpp:50-80 | bid slot i fills fields 1 + 2i and 2 + 2i, and ask slot i fills fields 21 + 2i and 22 + 2i |
| Snapshot.SnapshotSplits | src/reconstruction_aayush.cpp:50-80 | a written row ends in a newline; for a comma-free timestamp, splitting the rest at commas gives back exactly its 41 fields |
| Snapshot.SnapshotCommas | src/reconstruction_aayush.cpp:50-80 | a row has 40 structural commas plus any inside the timestamp |
| Snapshot.EmptyBooksSnapshot | src/reconstruction_aayush.cpp:50-80 | with both sides empty the row is the timestamp, 40 commas and a newline |
| Snapshot.SnapshotText | src/reconstruction_aayush.cpp:50-80 | the joined 41 fields are the streamed text: timestamp, ten bid slots as ",price,size" or ",,", ten ask slots, newline |
| Snapshot.AppendLevels | src/reconstruction_aayush.cpp:54-60 | the level loop writes the first min(10, L) slots of the side and stops after ten or at the end of the side |
| Snapshot.AppendPadding | src/reconstruction_aayush.cpp:61-64 | the padding loop completes the ten slots with ",," for each vacant one |
| Snapshot.WriteSide | src/reconstruction_aayush.cpp:53-64 | the two loops of one side together write exactly that side's ten slots |
| Snapshot.WriteSnapshotRow | src/reconstruction_aayush.cpp:50-80 | the streaming writer produces exactly the row `WriteSnapshot` describes |
| Snapshot.VacanciesText | src/reconstruction_aayush.cpp:61-64 | n vacant slots are written as 2n commas |
| Snapshot.TopSlotsOf | src/reconstruction_aayush.cpp:53-64 | a side whose prices, best first, are a given listing of at most ten shows those levels in order, then vacant slots |
| Snapshot.SideText | src/reconstruction_aayush.cpp:53-64 | such a side is written as its levels followed by two commas per vacant slot |
| Snapshot.RowText | src/reconstruction_aayush.cpp:50-80 | the whole row of a book whose sides have given listings: timestamp, bid levels, bid padding, ask levels, ask padding, newline |
| Reconstruction.Decode | src/reconstruction_aayush.cpp:148-187 | "R", "A", "C" and "F" each decode to their event, both ways; id, size, price and side come from columns 10, 8, 7 and 6; an empty numeric field reads as 0 and an empty side as 'N' |
| Reconstruction.ProcessRow | src/reconstruction_aayush.cpp:137-189 | a row writes iff it has at least 11 fields and is not a reset seen first; a short row changes nothing; the first-event flag is cleared by any long-enough row; otherwise the decoded event is applied and the row is the snapshot of the new book |
| Reconstruction.Process | src/reconstruction_aayush.cpp:133-190 | the main loop run over a sequence of rows never writes more rows than it reads |
| Reconstruction.ShortRowsIgnored | src/reconstruction_aayush.cpp:137 | rows with fewer than 11 fields leave no trace: the loop over any rows behaves exactly as over its long-enough rows alone, book, first-event flag and output included |
| Reconstruction.ProcessWritesPerRow | src/reconstruction_aayush.cpp:133-190 | for any rows, short ones interleaved, once past the first event (or when the first long-enough row is not a reset) every long-enough row writes exactly one snapshot row, including later resets and unrecognised actions |
| Reconstruction.LeadingResetSkipped | src/reconstruction_aayush.cpp:137-146 | when the first long-enough row is a reset, short rows before it included, it writes nothing: the output is that of the later long-enough rows, one row each |
| Reconstruction.ProcessCount | src/reconstruction_aayush.cpp:133-190 | from the start, the number of rows written is the number of long-enough rows, less one when the first of them is a reset |
| Reconstruction.LaterResetWritesEmptyRow | src/reconstruction_aayush.cpp:155-158 | a later reset empties the book and writes the timestamp followed by 40 commas |
| Reconstruction.ProcessKeepsWellFormed | src/reconstruction_aayush.cpp:133-190 | whatever the input, all levels and all remaining sizes stay positive |
| Reconstruction.ProcessKeepsConsistent | src/reconstruction_aayush.cpp:133-190 | along a run that respects the fresh-id and fill-bound assumptions, the books stay consistent with the ledger |
| Reconstruction.ToRowFields | src/reconstruction_aayush.cpp:135 | a line gives one field more than its commas, none holding a comma |
| Reconstruction.LinesWriteFullRows | src/reconstruction_aayush.cpp:133-190 | every row written for comma-split input lines is newline-terminated and splits into exactly 41 fields |
| Reconstruction.HeaderFields | src/reconstruction_aayush.cpp:122-126 | the header has 41 fields starting with "ts_event" |
| Reconstruction.HeaderLineFull | src/reconstruction_aayush.cpp:122-126 | the header row ends in a newline and splits back into exactly its 41 names, none of which holds a comma |
| Reconstruction.Reconstruct | src/reconstruction_aayush.cpp:119-190 | the output opens with the header row, and an input with no data line gives the header row alone |
| Reconstruction.ReconstructOutput | src/reconstruction_aayush.cpp:119-190 | after the header, the output is the written rows in order, each newline-terminated with 41 fields, one per long-enough data line less a leading reset |
| Scenarios.HandlesSingleAdd | test/test_orderbook.cpp:93-98 | one bid of 10 at 100.50 writes "T1,100.50,10" followed by 38 commas |
| Scenarios.HandlesBidAndAsk | test/test_orderbook.cpp:100-105 | a bid and an ask: the ask pair starts after the ten bid slots, exactly as the expected row |
| Scenarios.HandlesCancelOrder | test/test_orderbook.cpp:107-114 | cancelling the bid empties the bid slots and keeps the ask, exactly as the expected row |
| Scenarios.HandlesPartialFill | test/test_orderbook.cpp:116-122 | 10 then a fill of 4 leaves level 6, exactly as the expected row |
| Scenarios.HandlesFullFill | test/test_orderbook.cpp:124-129 | a fill of the whole size leaves the empty book, and the row is "T5" and 40 commas |
| Scenarios.HandlesComplexSequence | test/test_orderbook.cpp:131-143 | 99.50 aggregates 10 + 30 = 40, bids come highest first, the cancelled ask is gone: exactly the expected row |
| Scenarios.ComplexClosing | test/test_orderbook.cpp:136-138 | the fill, cancel and add at an existing price leave bids {99.50: 40, 99.00: 10} and asks {100.50: 20} |
| Scenarios.HandlesReset | test/test_orderbook.cpp:145-150 | reset empties the book, and the row is "T7" and 40 commas |

## Left out

- File handling is not modelled: opening and reading the input file, the output path, and the usage and error messages. `Reconstruct` takes the input as a list of lines (dropping the first, the input header) and returns the output text.
- Number parsing with `stoll`, `stoi` and `stod`, including its exceptions, is not modelled. Each field carries the number parsing would give (`Field.value`, or the `read` parameter of `ToRow`). An empty field reads as 0, as in the code.
- `double` prices are modelled as integer ticks of 0.01. `fixed`/`setprecision(2)` rendering becomes the exact `PriceText`. Floating-point rounding and prices that are not whole ticks are not modelled.
- Engine.AddOrder: sizes are unbounded integers, so 32-bit `int` overflow of sizes and level aggregates is not modelled.
- Engine.FillOrder: the 32-bit remaining-size arithmetic is likewise unbounded.
- Engine.ApplyKeepsConsistent: the `B`/`A` side requirement on adds is not needed. Orders with another side count toward neither side, so the property holds without it.
- Reconstruction.Process: its own contract states only that no more rows are written than read. The exact count for any input is stated by `ProcessCount`, built on `ShortRowsIgnored`, `ProcessWritesPerRow` and `LeadingResetSkipped`.
- Splitting the file into lines (`getline`) is not modelled; the input is already a sequence of lines.
- Performance is not modelled: hash versus tree lookups, `sync_with_stdio` and output buffering are not observable behaviour.
- The gtest fixture and its string stream are not modelled. The scenarios are stated directly on the engine and `WriteSnapshot`.
