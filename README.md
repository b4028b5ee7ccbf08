# Investment diary: a verified model of the bookkeeping core

The investment diary records US-dollar purchases (`USD 사기`) and sales
(`USD 팔기`) made through a Korean bank app. Records come from a manual form
or from a screenshot whose recognised text is parsed into fields. Each sale
is closed against an earlier purchase of the same amount. A closed pair
becomes one profit row, and the two open rows are removed.

This project models four parts of the system in Dafny and proves properties
about them.

- `calculator.dfy` (module `Calculator`) models the pure helpers in
  `src/utils/investmentCalculator.ts`:
  - the exact-match buy finder;
  - the profit calculation;
  - the duplicate predicate;
  - month grouping, as a method with a loop over a `map` accumulator.
- `database.ts` (module `Database`) is modelled in `database.dfy`.
  - The SQLite queries are functions over the two tables.
  - The statements that change the tables are methods of `class Store`:
    - inserts, which fail on a primary-key collision;
    - deletes, which report how many rows they removed;
    - clearing both tables;
    - the duplicate-profit sweep, a loop inside a loop.
  - The sweep is proved against a specification `Dedup`, and the lemmas
    about `Dedup` say the following:
    - afterwards each (buy, sell) pair has one row;
    - that row is the one with the earliest timestamp;
    - no pair disappears;
    - a second sweep changes nothing.
- `ingest.dfy` (module `Ingest`) models the POST loop and the DELETE
  handler of `src/app/api/investments/route.ts`.
  - `RunBatch` gives the effect of a batch, record by record. It covers:
    - rejecting duplicates;
    - assigning an id;
    - storing the record;
    - for a sale, matching it, writing the profit row and deleting both
      open rows.
  - The method `Post` runs the same loop on a `Store` and is proved to
    reach the same state. When a record throws part-way, the rows already
    written stay.
- `ocr.dfy` (module `Ocr`) models `src/utils/ocrParser.ts`.
  - Each regular expression is a scan over positions, and the leftmost
    match is reported.
  - The date, type, amount and won patterns are each described character
    by character (`DateText`, `TypeText`, `AmountText`, `PartAt`). Each
    matcher is proved to match at a position exactly when that text is
    there, with the captures and values taken from it.
  - `parseOCRText` is a method with the source's three loops. It is proved
    equal to the specification `Expected`.
  - Lemmas then state each field's rule:
    - the first rate inside the [1000, 2000] window;
    - the primary foreign-amount tier over the label tier;
    - the last date, type and won amount;
    - the defaults when nothing matches.

Shared pieces:
- `common.dfy` holds `Option` and a `Filter` with its algebra.
- `text.dfy` holds the order SQLite uses for TEXT, decimal digit strings,
  `padStart` and JavaScript whitespace.
- `records.dfy` holds the two row types and the result of `x / y * 100`.

One consequence of the model is worth noting. `getNextId` hands out one more
than the largest existing serial. When a sale closes, both open rows are
deleted, so the next record can receive an id that is still named by a
profit row (`Database.NextIdReissuedAfterDelete`).

Outside effects become inputs:
- The database clock (`createdAt DEFAULT CURRENT_TIMESTAMP`) and
  `new Date().toISOString()` become the fields of a `Clock`, one per record.
- The random profit id also comes from the `Clock`.
- The JavaScript `Date` comparison and the month key are function
  parameters of the calculator.

## Model

| member | source | states |
|---|---|---|
| Records.Percent | src/app/api/investments/route.ts:117 | `profit / base * 100` is a finite number exactly when `base` is non-zero, and then it times `base` equals `profit * 100` |
| Records.PercentSign | src/utils/investmentCalculator.ts:23 | with a positive base, the rate has the sign of the profit (positive, zero and negative each) |
| Calculator.FindMatchingBuyRecord | src/utils/investmentCalculator.ts:3-14 | nothing is returned exactly when no record is a buy with equal amount, equal rate and an earlier date; otherwise the result is the first such record in array order |
| Calculator.CalculateProfit | src/utils/investmentCalculator.ts:16-39 | every field of the profit row: ids, dates, rates, both won amounts as amount times rate, profit as their difference, and the rate as profit over buy amount times 100, finite exactly when the buy amount is non-zero |
| Calculator.ProfitRateSign | src/utils/investmentCalculator.ts:20-23 | with a positive buy amount and rate, the profit rate is finite and has the sign of the profit |
| Calculator.ProfitExample | src/utils/investmentCalculator.ts:20-23 | buying 100 at 1300 and selling 100 at 1350 gives profit 5000 and rate 50/13 percent |
| Calculator.IsDuplicateRecord | src/utils/investmentCalculator.ts:55-65 | true exactly when some existing record has the same date, type, amount and rate |
| Calculator.IsDuplicateIgnoresBookkeeping | src/utils/investmentCalculator.ts:59-64 | the answer does not depend on id, won amount, source or timestamp of either side |
| Calculator.MonthKeysSnoc | src/utils/investmentCalculator.ts:44-48 | adding a record adds exactly its month key to the keys |
| Calculator.MonthKeysOccur | src/utils/investmentCalculator.ts:44-48 | a month is a key exactly when some record falls in it |
| Calculator.GroupStep | src/utils/investmentCalculator.ts:46-49 | one push keeps the accumulator equal to the per-month filter of the records seen so far |
| Calculator.GroupRecordsByMonth | src/utils/investmentCalculator.ts:41-53 | the keys are exactly the months that occur, and each group is the records of that month in input order |
| Calculator.GroupsPartition | src/utils/investmentCalculator.ts:41-53 | each record sits in its own month's group as often as in the input, and in no other group |
| Text.IsSpace | src/utils/ocrParser.ts:15 | the characters `trim` removes and `\s` matches: the Unicode white space and line terminators and the byte order mark (the definition the trimming and matching lemmas use) |
| Text.SkipDigitsStops | src/utils/ocrParser.ts:76 | a run of digits is read up to the first character after it that is not a digit |
| Text.LexLess | src/lib/database.ts:180 | `date < ?` on TEXT columns: byte-wise comparison, a proper prefix before its extensions; its order properties are the four lemmas below |
| Text.LexLessIrreflexive | src/lib/database.ts:180 | no date is before itself under the TEXT order |
| Text.LexLessTransitive | src/lib/database.ts:180-181 | the TEXT order is transitive, so `ORDER BY date` is well defined |
| Text.LexLessTotal | src/lib/database.ts:181 | two different dates are always ordered one way or the other |
| Text.LexLessAsymmetric | src/lib/database.ts:180 | two dates are never each before the other |
| Text.PadStart | src/lib/database.ts:234 | `padStart(width, '0')` keeps the string as its suffix and fills only with zeros up to the width |
| Text.PadStartValue | src/lib/database.ts:234 | zero padding keeps the decimal value |
| Text.NatToString | src/lib/database.ts:234 | `toString()` of a number gives digits whose value is that number, with no leading zero unless the number is 0 |
| Database.Eligible | src/lib/database.ts:178-180 | the `WHERE` clause of the match query: a stored buy within 0.01 of the sale's amount and dated before it (stated through `Database.FindMatchingBuyRecord`) |
| Database.FindMatchingBuyRecord | src/lib/database.ts:157-200 | a returned row is a stored buy within 0.01 of the sale's amount and dated before it; nothing is returned exactly when no row qualifies |
| Database.FindMatchingIsEarliest | src/lib/database.ts:181-182 | no qualifying row has an earlier date than the one returned |
| Database.DuplicateCount | src/lib/database.ts:210-214 | the `COUNT(*)` is positive exactly when some row has the same date, type, amount and rate |
| Database.CheckDuplicate | src/lib/database.ts:209-216 | the store's duplicate check agrees with the calculator's `isDuplicateRecord` on the table |
| Database.Serial | src/lib/database.ts:222-223 | an id has a serial exactly when it is `INV_` followed by one or more digits, and the serial is the decimal value of those digits |
| Database.MaxSerial | src/lib/database.ts:220-226 | there is no largest serial exactly when no id has one; otherwise it is the serial of some row, and no row's serial is larger |
| Database.NextSerial | src/lib/database.ts:228-233 | the next serial is at least 1, above every stored serial, and one past a stored serial unless it is 1 |
| Database.NextDigits | src/lib/database.ts:228-234 | the digits after `INV_` are a decimal string whose value is the next serial |
| Database.GetNextId | src/lib/database.ts:219-235 | the new id's serial is the next serial, which is larger than every serial in the table |
| Database.NextIdText | src/lib/database.ts:234 | the id is `INV_` and at least four digits, and a longer one has no leading zero; with the serial this fixes the id's text (`INV_0005`, never `INV_5` or `INV_00005`) |
| Database.FirstIdIsOne | src/lib/database.ts:228-229 | a table without `INV_` serials, the empty one included, gets `INV_0001` |
| Database.NextIdIsFresh | src/lib/database.ts:219-235 | the generated id is not already in the table |
| Database.NextIdReissuedAfterDelete | src/lib/database.ts:219-235 | once the newest record is deleted, the same id is generated again |
| Database.PairCount | src/lib/database.ts:253-254 | the count is positive exactly when a profit row has that buy id and that sell id |
| Database.HasProfitRecord | src/lib/database.ts:238-257 | true exactly when a profit row exists for the directed pair (buy id, sell id) |
| Database.StampLessOrder | src/lib/database.ts:272 | `ORDER BY createdAt ASC` (NULL first) is a strict total order |
| Database.Earliest | src/lib/database.ts:269-273 | the first row of a pair in timestamp order is one of the pair's rows |
| Database.EarliestIsFirst | src/lib/database.ts:272 | no row of the pair has an earlier timestamp than the kept row |
| Database.EarliestSurvives | src/lib/database.ts:274 | the first row of each pair is never deleted |
| Database.Dedup | src/lib/database.ts:260-279 | the table the sweep leaves: the rows whose id is not surplus, a sub-table of the old one; its properties are the `Dedup*` lemmas below |
| Database.DedupOnePerPair | src/lib/database.ts:260-279 | after the sweep no two rows share a (buy, sell) pair |
| Database.DedupKeepsEarliest | src/lib/database.ts:269-274 | the surviving row of a pair has the earliest timestamp of all the pair's rows before the sweep |
| Database.DedupKeepsEveryPair | src/lib/database.ts:260-279 | every pair present before the sweep still has a row after it |
| Database.DedupKeepsSingletons | src/lib/database.ts:261-266 | a row alone with its pair is untouched |
| Database.DedupNoDuplicates | src/lib/database.ts:261-266 | a table without repeated pairs is left as it is |
| Database.DedupIdempotent | src/lib/database.ts:260-279 | sweeping twice gives the table of sweeping once |
| Database.DuplicatePairs | src/lib/database.ts:261-266 | the `GROUP BY buyRecordId, sellRecordId HAVING cnt > 1` query: the pairs of the profit rows that share their pair with another row (stated through the two lemmas below) |
| Database.DuplicatePairRows | src/lib/database.ts:261-266 | each pair the `HAVING cnt > 1` query returns has more than one row |
| Database.RedundantInDuplicatePair | src/lib/database.ts:261-266 | every row the sweep deletes belongs to a pair the query returns |
| Database.GroupUnaffected | src/lib/database.ts:267-278 | deleting surplus rows of other pairs leaves the rows of the next pair as they were |
| Database.GroupSurplusIds | src/lib/database.ts:274 | `ids.slice(1)` for a pair is exactly that pair's surplus ids |
| Database.CleanupStep | src/lib/database.ts:267-278 | one round of the outer loop moves the deletions from "pairs done" to "pairs done plus this one" |
| Database.AllDuplicatesDone | src/lib/database.ts:267 | when every returned pair is done, the deleted ids are the whole surplus |
| Database.Store.constructor | src/lib/database.ts:19-48 | a fresh database file: both tables are created empty, with unique keys |
| Database.Store.InsertInvestment | src/lib/database.ts:94-108 | succeeds exactly when the id is new, and then appends the row with the database's timestamp; nothing else changes |
| Database.Store.InsertProfit | src/lib/database.ts:111-130 | succeeds exactly when the id is new, and then appends the row with the database's timestamp; nothing else changes |
| Database.Store.DeleteInvestment | src/lib/database.ts:133-136 | removes the row with that id; `changes` is the number removed, positive exactly when the id was present |
| Database.Store.DeleteProfitsByInvestmentId | src/lib/database.ts:139-142 | removes every profit row naming the id on either side; `changes` is positive exactly when one existed |
| Database.Store.DeleteProfitById | src/lib/database.ts:145-148 | removes the profit row with that id; `changes` is positive exactly when it was present |
| Database.Store.ClearAllData | src/lib/database.ts:203-206 | both tables are empty afterwards |
| Database.Store.DeleteProfitIds | src/lib/database.ts:275-277 | the inner loop leaves exactly the rows whose id is not in the list |
| Database.Store.CleanupDuplicateProfits | src/lib/database.ts:260-279 | the profits table becomes `Dedup` of the old one, and the investments are untouched; the sweep also runs at load time (src/app/api/investments/route.ts:6) |
| Database.FilterKeepsUniqueInvestmentIds | src/lib/database.ts:23 | deleting investment rows keeps that primary key unique |
| Database.FilterKeepsUniqueIds | src/lib/database.ts:37 | deleting profit rows keeps that primary key unique |
| Ingest.ProfitRow | src/app/api/investments/route.ts:126-140 | the `profitRecord` literal (stated through `Ingest.ProfitRowIsCalculatedProfit`) |
| Ingest.SettleSale | src/app/api/investments/route.ts:97-164 | the sell branch on tables already holding the sale (stated through the sale lemmas below) |
| Ingest.ProcessRecord | src/app/api/investments/route.ts:43-178 | one pass of the loop (stated through the lemmas below) |
| Ingest.RunBatch | src/app/api/investments/route.ts:43-179 | the loop over a batch, stopping at the first throw (stated through `Ingest.RunBatchStep`, `Ingest.BatchAnswersEachRecord` and `Ingest.FailureIsFinal`) |
| Ingest.ProcessRecordShape | src/app/api/investments/route.ts:43-178 | a throw leaves the profits as they were, a rejection changes nothing, and one record adds at most one profit row |
| Ingest.SettleSaleShape | src/app/api/investments/route.ts:97-164 | the sell branch leaves both tables as they were when it throws, answers with the sale, and adds at most one profit row |
| Ingest.AssignedId | src/app/api/investments/route.ts:61-69 | the record's id is the submitted one when the submission carries an id (the spread of `recordData` overrides `id`), and otherwise `getNextId()`, which no stored investment has |
| Ingest.NewRecord | src/app/api/investments/route.ts:64-69 | the stored record carries the submitted date, type, amounts and rate, with the batch's source and the ISO timestamp |
| Ingest.ProfitRowIsCalculatedProfit | src/app/api/investments/route.ts:114-140 | the route's profit row is the calculator's, except that both won amounts come from the stored records |
| Ingest.DuplicateChangesNothing | src/app/api/investments/route.ts:47-58 | a duplicate submission is answered as rejected and leaves both tables unchanged |
| Ingest.SavedRecordIsSubmission | src/app/api/investments/route.ts:60-75 | a saved record was not a duplicate, carries the submission's fields, and its id was not in the table |
| Ingest.GeneratedIdNeverCollides | src/app/api/investments/route.ts:61-74 | a record without its own id never hits a primary-key collision when it is inserted |
| Ingest.BuyAppends | src/app/api/investments/route.ts:74-173 | a saved buy is appended to the investments, and the profits are unchanged |
| Ingest.MatchedSaleEffect | src/app/api/investments/route.ts:97-157 | a sale that adds a profit row had a match and no earlier row for the pair; the matched buy is deleted and the row for the pair is appended |
| Ingest.MatchedSaleCloses | src/app/api/investments/route.ts:97-157 | a new sale with an eligible purchase, no profit row for the pair and a free profit id is closed: the purchase and the sale leave `investments` and exactly the pair's profit row is appended |
| Ingest.UnmatchedSaleStaysOpen | src/app/api/investments/route.ts:161-164 | a new sale without an eligible purchase stays as an open row and the profits are unchanged |
| Ingest.ProfitIdCollisionThrows | src/app/api/investments/route.ts:144 | a closing sale whose profit id is taken throws after the sale has been stored |
| Ingest.ExistingPairLeavesSaleOpen | src/app/api/investments/route.ts:109-160 | a new sale whose matching purchase already has a profit row for the pair is stored as an open row, nothing is deleted and no profit row is written, and the answer is that sale |
| Ingest.MatchIgnoresSale | src/lib/database.ts:178 | a stored sale never changes which buy matches |
| Ingest.ProcessKeepsKeys | src/app/api/investments/route.ts:43-178 | handling one record keeps both primary keys unique |
| Ingest.InvestmentsSnocKeepsKeys | src/lib/database.ts:23 | appending an investment row with a new id keeps the key unique |
| Ingest.SettleKeepsKeys | src/app/api/investments/route.ts:97-157 | settling a stored sale keeps both primary keys unique |
| Ingest.ProfitsSnocKeepsKeys | src/lib/database.ts:37 | appending a profit row with a new id keeps the key unique |
| Ingest.BatchKeepsKeys | src/app/api/investments/route.ts:43-179 | a whole batch keeps both primary keys unique |
| Ingest.RunBatchStep | src/app/api/investments/route.ts:43-179 | one more submission extends the batch by exactly that record's handling: a throw ends it, otherwise its result is appended |
| Ingest.RecordAnswer | src/app/api/investments/route.ts:52-178 | a record that does not throw is answered as rejected, or as saved with its own fields, the batch's source and its timestamp |
| Ingest.BatchAnswersEachRecord | src/app/api/investments/route.ts:43-179 | a finished batch has one result per submission: rejected, or saved with its fields, source and timestamp |
| Ingest.SaleClosesAgainstStoredBuy | src/app/api/investments/route.ts:97-157 | a sale matching the only stored buy empties the investments and leaves exactly the one profit row |
| Ingest.BuyIntoEmptyTables | src/app/api/investments/route.ts:60-75 | a purchase into empty tables is stored as the only open row and answered as saved |
| Ingest.SettleAgainstOnlyBuy | src/app/api/investments/route.ts:97-157 | a sale stored after one eligible purchase closes against it: both open rows go and the profit row is written |
| Ingest.SameBatchPairsUp | src/app/api/investments/route.ts:74-97 | a buy and a later matching sale in one batch close against each other: no open rows remain and the one profit row names the batch's purchase and its sale |
| Ingest.FailureIsFinal | src/app/api/investments/route.ts:188-191 | once a record throws, the rest of the batch is not processed |
| Ingest.HandleSale | src/app/api/investments/route.ts:77-164 | the sell branch changes the store exactly as the specification says, and answers exactly when it does not throw |
| Ingest.HandleRecord | src/app/api/investments/route.ts:43-178 | one pass of the loop changes the store exactly as the specification says, and answers exactly when it does not throw |
| Ingest.RunBatchCrash | src/app/api/investments/route.ts:43-191 | a record that throws after the records before it went through makes the whole batch fail with the tables the throw left |
| Ingest.RecordStep | src/app/api/investments/route.ts:43-178 | one pass of the loop on the store extends the batch by that record's outcome, or makes the whole batch fail with the store as the throw left it |
| Ingest.Post | src/app/api/investments/route.ts:29-192 | a missing or malformed `records` gives 400 with no change; a throw gives 500 with the rows written so far; otherwise the answer lists every result and the profits are swept |
| Ingest.Delete | src/app/api/investments/route.ts:195-227 | with a non-empty id, the profit row is removed and the answer is success exactly when it existed (404 otherwise); without one, both tables are cleared |
| Ocr.Split | src/utils/ocrParser.ts:15 | `split('\n')` gives at least one piece and no piece holds a newline |
| Ocr.JoinSplit | src/utils/ocrParser.ts:15 | joining the pieces with newlines gives the text back |
| Ocr.Trim | src/utils/ocrParser.ts:15 | the result is the slice of the line left after removing only whitespace from both ends; it neither starts nor ends with whitespace, and is empty exactly when the line was all whitespace |
| Ocr.TrimIdempotent | src/utils/ocrParser.ts:15 | trimming twice is trimming once |
| Ocr.Lines | src/utils/ocrParser.ts:15 | every line kept is non-empty, trimmed and without a newline, and the trimmed form of every non-blank piece between newlines is kept |
| Ocr.TrimmedLines | src/utils/ocrParser.ts:15 | the lines kept from pieces without a newline are non-empty, trimmed and without a newline |
| Ocr.NonBlankKept | src/utils/ocrParser.ts:15 | a piece whose trimmed form is not empty appears, trimmed, among the lines kept |
| Ocr.DigitsOf | src/utils/ocrParser.ts:5 | removing every non-digit leaves only digits, and every digit of the line is kept |
| Ocr.DigitsOfSnoc | src/utils/ocrParser.ts:5 | one more character adds itself at the end when it is a digit and nothing otherwise, so the digits keep their order |
| Ocr.SixDigitValue | src/utils/ocrParser.ts:4-10 | a value exactly when the line holds six digits; it is the digits read with two decimals, in [0, 10000) |
| Ocr.SixDigitExample | src/utils/ocrParser.ts:6-9 | `134562` gives 1345.62 |
| Ocr.FiveDigitExample | src/utils/ocrParser.ts:6-9 | five digits give nothing |
| Ocr.LeftmostNone | src/utils/ocrParser.ts:34-76 | `match` finds nothing exactly when the pattern matches at no position |
| Ocr.LeftmostIsFirst | src/utils/ocrParser.ts:34-76 | `match` reports the match at the first position where one starts |
| Ocr.DateAt | src/utils/ocrParser.ts:27 | the date pattern at one position (stated through `Ocr.DateAtSound` and `Ocr.DateAtComplete`) |
| Ocr.PartFrom | src/utils/ocrParser.ts:27 | one step `\s*(\d{1,2})` plus terminator, read at `a`; the step lies after `a` (what it reads is stated through the two lemmas below) |
| Ocr.PartFromSound | src/utils/ocrParser.ts:27 | a step read is one or two digits after optional whitespace, directly followed by the terminator |
| Ocr.PartFromComplete | src/utils/ocrParser.ts:27 | conversely, whitespace, one or two digits and a terminator that is not a digit are read as that step, with exactly that capture |
| Ocr.SkipSpacesStops | src/utils/ocrParser.ts:27 | `\s*` stops at the first character that is not whitespace |
| Ocr.StepsFromSound | src/utils/ocrParser.ts:27 | reading the month, day and hour steps in turn gives spans that are each such a step, each starting after the previous terminator |
| Ocr.StepsFromComplete | src/utils/ocrParser.ts:27 | steps that are there, with non-digit terminators, are read in turn, exactly |
| Ocr.DateSteps | src/utils/ocrParser.ts:27 | the three steps of the date pattern are the month step closed by `월`, the day step closed by `일` and the hour step closed by `:` |
| Ocr.DateAtSound | src/utils/ocrParser.ts:27 | a date match at `i` captures four year digits, one or two digits for month, day and hour, and two for the minute; each capture is the text of the line at its place: the year at `i` before `년`, then month, day and hour after optional spaces before `월`, `일` and `:`, and the minute right after the `:` |
| Ocr.DateAtComplete | src/utils/ocrParser.ts:27 | conversely, such text at `i` is matched there, with exactly those captures |
| Ocr.DateMatchExample | src/utils/ocrParser.ts:26-27 | `2025년 7월 1일 15:08` is matched with captures 2025, 7, 1, 15 and 08 |
| Ocr.RenderDate | src/utils/ocrParser.ts:37 | the template string of the date (stated through `Ocr.RenderDateShape`) |
| Ocr.RenderDateShape | src/utils/ocrParser.ts:37 | the stored date is `YYYY-MM-DD HH:MM`, and month, day and hour keep their values once padded |
| Ocr.RenderExample | src/utils/ocrParser.ts:37 | those captures are stored as `2025-07-01 15:08` |
| Ocr.TypeAt | src/utils/ocrParser.ts:30 | the type pattern at one position: the two characters after `USD` and any whitespace (stated through the two lemmas below) |
| Ocr.TypeAtSound | src/utils/ocrParser.ts:30 | a type match at `i` is `USD` there, whitespace, then `사` or `팔` and `기` or `리`, which are the characters reported |
| Ocr.TypeAtComplete | src/utils/ocrParser.ts:30 | conversely, such text at `i` is matched there with those two characters |
| Ocr.TypeOf | src/utils/ocrParser.ts:62-69 | a line says buy exactly when its first type match ends in `사기`, and sell exactly when it ends in `팔기` |
| Ocr.Groups | src/utils/ocrParser.ts:76 | the `(?:,\d{3})*` part takes comma groups as long as there are any: what it takes is a run of groups, and no further group follows it |
| Ocr.GroupsValue | src/utils/ocrParser.ts:78 | with the digits read before the groups, the value carried is the number those digits followed by the groups' digits spell |
| Ocr.GroupsComplete | src/utils/ocrParser.ts:76 | groups followed by the point are all taken, so the point is reached |
| Ocr.AmountAt | src/utils/ocrParser.ts:76-78 | the amount pattern at one position, as hundredths (stated through the lemmas below) |
| Ocr.AmountDigits | src/utils/ocrParser.ts:78 | the digits of an amount text are its leading run, its groups' digits and the two after the point; the sign, the commas and the point are dropped |
| Ocr.AmountValue | src/utils/ocrParser.ts:78 | the hundredths carried are the number the digits of the amount text spell |
| Ocr.AmountAtSound | src/utils/ocrParser.ts:76-78 | a match at `i` is amount text there: an optional sign, one to three digits, comma groups of three digits, the point and two digits; its value is the absolute value with the commas stripped, in hundredths |
| Ocr.AmountAtComplete | src/utils/ocrParser.ts:76-78 | conversely, amount text at `i` is matched there, with that value |
| Ocr.AmountExamples | src/utils/ocrParser.ts:76-78 | `-12.50` reads as 12.50; four digits before the point do not match at the start; the leftmost match of `1234.56` is 234.56; `+1,234.56` reads as 1234.56 |
| Ocr.CommaAmountExample | src/utils/ocrParser.ts:78 | the commas are stripped: `+1,234.56` is 123456 hundredths |
| Ocr.WonAt | src/utils/ocrParser.ts:53-54 | a won match needs the key at `i`, and captures the non-empty run of digits and commas that follows it after optional spaces and is directly followed by `원` |
| Ocr.SkipDigitsCommasStops | src/utils/ocrParser.ts:53 | `[\d,]+` stops at the first character that is neither a digit nor a comma |
| Ocr.WonAtComplete | src/utils/ocrParser.ts:53-54 | conversely, the key at `i`, optional spaces, a non-empty run of digits and commas and `원` are matched there, with exactly that run as the capture |
| Ocr.WonExample | src/utils/ocrParser.ts:53 | the line `원화 출금 금액 1,234원` yields the withdrawal capture `1,234` |
| Ocr.ParseWon | src/utils/ocrParser.ts:56-58 | the value is the capture's digits read in decimal, and NaN exactly when the capture holds no digit |
| Ocr.WonOf | src/utils/ocrParser.ts:53-59 | on one line the withdrawal pattern wins over the deposit pattern, which counts only when the first does not match |
| Ocr.ForeignLabel | src/utils/ocrParser.ts:41 | the foreign-amount label test, also used by the fallback loop: the line contains `외화금액` or `외화 금액`; the alternative with `거래` only matches where this one does |
| Ocr.RateLabel | src/utils/ocrParser.ts:47 | the test `/적용 ?환율/`: the line contains `적용환율` or `적용 환율` |
| Ocr.LabelValue | src/utils/ocrParser.ts:41-44 | a foreign-amount label line contributes its six-digit value when that value is non-zero |
| Ocr.RateValue | src/utils/ocrParser.ts:47-50 | a rate label line contributes its six-digit value exactly when that value lies in [1000, 2000] |
| Ocr.LastHit | src/utils/ocrParser.ts:32-70 | a variable overwritten on every hit of the first loop; it is unset exactly when no line hits |
| Ocr.FirstHit | src/utils/ocrParser.ts:47-50 | a variable set only while it holds its initial value; it is unset exactly when no line hits |
| Ocr.LastHitIsLast | src/utils/ocrParser.ts:32-70 | a variable overwritten on every hit holds the value of the last line that hits |
| Ocr.FirstHitIsFirst | src/utils/ocrParser.ts:47-50 | a variable set only while it is 0 holds the value of the first line that hits |
| Ocr.HasTradeMarker | src/utils/ocrParser.ts:74 | the test for `USD` then whitespace then `사기` or `팔기` anywhere in the line (used by `Ocr.PrimaryAt`) |
| Ocr.NextLine | src/utils/ocrParser.ts:75 | the line after `i`, or the empty string after the last line (used by `Ocr.PrimaryAt`) |
| Ocr.PrimaryAt | src/utils/ocrParser.ts:74-80 | a marker line whose next line holds an amount gives the absolute value of that amount |
| Ocr.PrimaryFrom | src/utils/ocrParser.ts:73-82 | the second loop, from index `i`: never negative; which line it stops at is stated by the two lemmas below, and `Ocr.PrimaryTier` is proved against it |
| Ocr.PrimaryFromIsFirst | src/utils/ocrParser.ts:73-82 | the indexed loop stops at the first marker line whose next line holds an amount |
| Ocr.PrimaryFromNone | src/utils/ocrParser.ts:73-82 | the loop finds nothing exactly when no marker line is followed by an amount |
| Ocr.ForeignAmount | src/utils/ocrParser.ts:41-91 | the foreign amount is never negative; it is the primary amount unless that is missing or zero, and otherwise the last labelled value or 0 |
| Ocr.Expected | src/utils/ocrParser.ts:101-108 | the result has confidence 0.8, a rate of 0 or within [1000, 2000], and a foreign amount that is not negative |
| Ocr.ScanDate | src/utils/ocrParser.ts:34-38 | the date holds the rendering of the last dated line seen so far, or the empty string |
| Ocr.ScanLabel | src/utils/ocrParser.ts:41-44 | the label amount holds the last non-zero labelled six-digit value seen so far, or 0 |
| Ocr.ScanRate | src/utils/ocrParser.ts:47-50 | the rate holds the first in-window rate seen so far, and is 0 exactly when there was none |
| Ocr.ScanWon | src/utils/ocrParser.ts:53-59 | the won amount holds what the last line with a won match says, or 0 |
| Ocr.ScanType | src/utils/ocrParser.ts:62-69 | the type holds what the last line with a `사기` or `팔기` match says |
| Ocr.ScanLines | src/utils/ocrParser.ts:32-70 | after the first loop, date, label amount, won amount and type hold the last hit, and the rate holds the first hit |
| Ocr.PrimaryTier | src/utils/ocrParser.ts:73-82 | the second loop replaces the amount by the first primary amount, or leaves it alone when there is none |
| Ocr.LabelFallback | src/utils/ocrParser.ts:84-91 | the fallback loop yields the last labelled value, or 0 |
| Ocr.ParseOcrText | src/utils/ocrParser.ts:12-113 | null exactly when the argument is not a string; otherwise the result is `Expected` of the text's lines |
| Ocr.RateIsFirstInWindow | src/utils/ocrParser.ts:47-50 | the rate is the value of the first rate line inside the window, and later lines never replace it |
| Ocr.NoRateLine | src/utils/ocrParser.ts:19-50 | without such a line the rate is 0 |
| Ocr.DateIsLastMatch | src/utils/ocrParser.ts:34-38 | the date is the rendering of the last line that holds one |
| Ocr.NoDateLine | src/utils/ocrParser.ts:17-38 | without such a line the date is the empty string |
| Ocr.TypeIsLastMarker | src/utils/ocrParser.ts:62-69 | the type is what the last line with a `사기` or `팔기` match says |
| Ocr.TypeDefaultsToBuy | src/utils/ocrParser.ts:105 | without such a line the type is `USD 사기` |
| Ocr.WonIsLastMatch | src/utils/ocrParser.ts:53-59 | the won amount is what the last line with a won match says |
| Ocr.NoWonLine | src/utils/ocrParser.ts:21-59 | without such a line the won amount is 0 |
| Ocr.PrimaryOverridesLabel | src/utils/ocrParser.ts:73-82 | a non-zero primary amount is the result, whatever the label lines say |
| Ocr.LabelTierIsLastLabel | src/utils/ocrParser.ts:84-91 | without a primary amount, the last labelled six-digit value is the result |

## Left out

- Floating point: amounts, rates and products are exact reals. IEEE rounding in `amount * rate`, in `parseFloat` and in `Number("dddd.dd")` is not modelled.
- Records.Percent: JavaScript's `x / 0` (Infinity, or NaN for `0 / 0`) is one `NonFinite` value. The model stores it. SQLite would store a NaN as NULL, which the `NOT NULL` column then rejects, and that throw is not modelled.
- Calculator.FindMatchingBuyRecord: `new Date(a) < new Date(b)` is a parameter `before`. JavaScript's date parsing is not modelled.
- Calculator.GroupRecordsByMonth: the month key (`getFullYear`, `getMonth` in local time) is a parameter `monthKey`.
- Database.FindMatchingBuyRecord: rows with equal dates are ordered by table order. SQLite leaves that order unspecified.
- Database.Earliest: among a pair's rows with equal `createdAt`, the row stored first is kept. SQLite leaves the order of ties under `ORDER BY createdAt ASC` unspecified, and `CURRENT_TIMESTAMP` has one-second resolution, so ties are likely.
- Database.NextDigits: its own contract states only the digits' value. The four-digit padding and the missing leading zero are stated by `Database.NextIdText`.
- Database.Serial: ids are read only as `INV_` followed by digits.
  - The `_` wildcard of `LIKE`, and its case-insensitivity, are not modelled.
  - `CAST` of a malformed suffix and `parseInt` producing NaN for such an id are not modelled.
  - `parseInt` of a serial above 2^53 loses precision as a float. The model keeps the exact integer.
- Database.Store.constructor: the model starts from a fresh database file. `initTables` (src/lib/database.ts:19-48) creates the tables only if they are missing in `data/exchange-diary.db`, so a restarted server keeps its rows. Every method contract holds for any valid store, not only a fresh one.
- Database.Store.CleanupDuplicateProfits: the surplus rows of a pair are deleted in table order, not in `createdAt` order. The final table is the same. The inner loop is a helper method, `DeleteProfitIds`.
- Database.HasProfitRecord: the pair is directed (buy id, sell id), as in the query. A reading of the pair as unordered is not modelled.
- Schema checks: `type` and `source` are enumerations in the model, so the `CHECK` constraints cannot fail. An unknown `source` string in a POST body is not modelled, and a missing one becomes `photo`.
- Ingest: `{ id, ...recordData, source, createdAt }` lets a submitted `id` override the generated one. This is modelled. Other extra fields of a submission are not.
- Ingest.Submission: a submitted record with a missing field, or a non-numeric amount or rate, is not modelled. JavaScript binds `undefined` and `NaN` as NULL, the `NOT NULL` columns (src/lib/database.ts:24-29) make `insertInvestment` throw, and the route answers 500 keeping the rows already written. A `Candidate` always carries every field as a number.
- Ingest.Post: a body that is not JSON is not modelled. A missing `records` array is `None`.
- Clocks and randomness: `new Date().toISOString()`, `Date.now()`, `Math.random()` and `CURRENT_TIMESTAMP` are inputs supplied per record.
- Concurrency between requests, and transactions: there are none in the source. A throw leaves earlier writes in place, and the model keeps them.
- Not modelled:
  - `getAllInvestments`, `getAllProfits` and `getInvestmentById`, which are plain reads;
  - the GET handler;
  - the `[id]` route;
  - the schema migration;
  - every `console.log`.
- Ocr: `foreignAmountCandidates` is never filled, so its `Math.max` branch (src/utils/ocrParser.ts:93-96) cannot run and is not modelled.
- Ocr: `formatCurrency` and `formatDate` are locale formatting and are not modelled.
- Ocr.ParseWon: `parseInt` of a very long digit string loses precision as a float. The model keeps the exact integer.
- Ocr.TypeOf: the matched text has the form `USD`, then whitespace, then two characters. It contains `사기` exactly when those two characters are `사기`, so only the pair is modelled.
