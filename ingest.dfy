/** The write handlers of `src/app/api/investments/route.ts`. `POST` stores a
    batch of submitted records one after the other; each sale is matched at
    once against the purchases stored so far (including those of the same
    batch), and a matched pair is moved from `investments` to a row of
    `profits`. `DELETE` removes one profit row or empties both tables.

    The batch is specified by `RunBatch`, a function over the two table
    contents; the handlers are methods over a `Store`. What the route reads
    from its environment for each record (the clock, the database clock and
    the random part of a profit id) is one `Clock` value per record. */
module Ingest {
  import opened Common
  import opened Records
  import opened Database
  import Calculator

  /** The contents of the two tables. */
  datatype Tables = Tables(investments: seq<InvestmentRecord>, profits: seq<ProfitRecord>)

  predicate ValidTables(t: Tables)
  {
    UniqueIds(t.investments) && UniqueProfitIds(t.profits)
  }

  /** One element of the `records` array: the trade fields, and an `id` if
      the client sent one (the spread `...recordData` copies it over the
      generated id). */
  datatype Submission = Submission(data: Candidate, id: Option<string>)

  /** The environment as the route sees it while handling one record:
      `new Date().toISOString()`, the database's `CURRENT_TIMESTAMP` at the
      two inserts, and the generated `profit_<time>_<random>` id. */
  datatype Clock = Clock(iso: string, investmentStamp: string, profitId: string, profitStamp: string)

  /** One element of `results`: `{success: false, error, data: recordData}`
      for a duplicate, `{success: true, data: record}` for a stored record. */
  datatype Outcome = Rejected(submitted: Submission) | Saved(record: InvestmentRecord)

  /** The response of `POST`: 400, 500, or `{success: true, results}`. */
  datatype PostResponse = BadRequest | ServerError | Accepted(results: seq<Outcome>)

  /** Handling one record either goes on with new tables and an outcome, or
      throws (a primary-key violation) after changing the tables to `tables`;
      there is no transaction, so changes made before the throw remain. */
  datatype Step = Next(tables: Tables, outcome: Outcome) | Crash(tables: Tables)

  /** The result of a whole batch before the final sweep. */
  datatype BatchResult = Completed(tables: Tables, outcomes: seq<Outcome>) | Failed(tables: Tables)

  /** The id the record receives: the client's, else `getNextId()`, which
      no stored investment has. */
  function AssignedId(t: Tables, s: Submission): (id: string)
    ensures s.id.Some? ==> id == s.id.value
    ensures s.id.None? ==> id !in Ids(t.investments)
  {
    if s.id.Some? then s.id.value
    else
      var id := GetNextId(t.investments);
      assert Serial(id) == Some(NextSerial(t.investments));
      id
  }

  /** The object literal `record` of the route. */
  function NewRecord(id: string, c: Candidate, source: Source, iso: string): (r: InvestmentRecord)
    ensures Calculator.SameTrade(c, r) && r.wonAmount == c.wonAmount
    ensures r.id == id && r.source == source && r.createdAt == iso
  {
    InvestmentRecord(id, c.date, c.kind, c.foreignAmount, c.exchangeRate, c.wonAmount, source, iso)
  }

  /** The object literal `profitRecord` of the route. */
  function ProfitRow(buy: InvestmentRecord, sell: InvestmentRecord, profitId: string): (p: ProfitRecord)
  {
    var buyAmount := buy.foreignAmount * buy.exchangeRate;
    var sellAmount := sell.foreignAmount * sell.exchangeRate;
    var profit := sellAmount - buyAmount;
    ProfitRecord(profitId, buy.date, sell.date, buy.id, sell.id, sell.foreignAmount,
                 buy.exchangeRate, sell.exchangeRate, buy.wonAmount, sell.wonAmount,
                 profit, Percent(profit, buyAmount), None)
  }

  /** The route's profit row is `calculateProfit`'s, except that the two won
      amounts are copied from the records instead of being recomputed. */
  lemma ProfitRowIsCalculatedProfit(buy: InvestmentRecord, sell: InvestmentRecord, profitId: string)
    ensures ProfitRow(buy, sell, profitId)
            == Calculator.CalculateProfit(buy, sell, profitId).(buyWonAmount := buy.wonAmount, sellWonAmount := sell.wonAmount)
  {
  }

  /** The matching part of the loop for a sale already stored in `t`: close
      it against the earliest eligible purchase unless that pair already has
      a profit row. */
  function SettleSale(t: Tables, record: InvestmentRecord, clock: Clock): Step
  {
    var m := FindMatchingBuyRecord(t.investments, record);
    if m.None? || HasProfitRecord(t.profits, m.value.id, record.id) then Next(t, Saved(record))
    else if clock.profitId in ProfitIds(t.profits) then Crash(t)
    else
      var buy := m.value;
      var profits := t.profits + [ProfitRow(buy, record, clock.profitId).(createdAt := Some(clock.profitStamp))];
      var remaining := Filter(Filter(t.investments, IdIsNot(buy.id)), IdIsNot(record.id));
      Next(Tables(remaining, profits), Saved(record))
  }

  /** One pass of the `for (const recordData of records)` loop. */
  function ProcessRecord(t: Tables, s: Submission, source: Source, clock: Clock): Step
  {
    if CheckDuplicate(t.investments, s.data) then Next(t, Rejected(s))
    else
      var id := AssignedId(t, s);
      var record := NewRecord(id, s.data, source, clock.iso);
      if id in Ids(t.investments) then Crash(t)
      else
        var stored := Tables(t.investments + [record.(createdAt := clock.investmentStamp)], t.profits);
        if record.kind == Buy then Next(stored, Saved(record))
        else SettleSale(stored, record, clock)
  }

  /** The loop over a batch, from its first record to its last. */
  function RunBatch(t: Tables, subs: seq<Submission>, source: Source, clocks: seq<Clock>): BatchResult
    requires |clocks| == |subs|
    decreases |subs|
  {
    if subs == [] then Completed(t, [])
    else
      var n := |subs| - 1;
      match RunBatch(t, subs[..n], source, clocks[..n])
      case Failed(t') => Failed(t')
      case Completed(t', outs) =>
        match ProcessRecord(t', subs[n], source, clocks[n])
        case Crash(t'') => Failed(t'')
        case Next(t'', o) => Completed(t'', outs + [o])
  }

  // ----- properties of one record -----

  /** What any one record can do: a throw never leaves a profit row written
      for it, a rejection changes nothing, and at most one profit row is
      added. */
  lemma ProcessRecordShape(t: Tables, s: Submission, source: Source, clock: Clock)
    ensures var r := ProcessRecord(t, s, source, clock);
            && (r.Crash? ==> r.tables.profits == t.profits)
            && (r.Next? && r.outcome.Rejected? ==> r.tables == t && r.outcome.submitted == s)
            && (r.Next? ==> |t.profits| <= |r.tables.profits| <= |t.profits| + 1)
  {
    if !CheckDuplicate(t.investments, s.data) {
      var id := AssignedId(t, s);
      var record := NewRecord(id, s.data, source, clock.iso);
      if id !in Ids(t.investments) && record.kind == Sell {
        SettleSaleShape(Tables(t.investments + [record.(createdAt := clock.investmentStamp)], t.profits), record, clock);
      }
    }
  }

  /** Settling a stored sale keeps the profit table on a throw, answers with
      the sale, and adds at most one profit row. */
  lemma SettleSaleShape(t: Tables, record: InvestmentRecord, clock: Clock)
    ensures var r := SettleSale(t, record, clock);
            && (r.Crash? ==> r.tables == t)
            && (r.Next? ==> r.outcome == Saved(record) && |t.profits| <= |r.tables.profits| <= |t.profits| + 1)
  {
  }

  /** A duplicate changes nothing and is answered with the submission. */
  lemma DuplicateChangesNothing(t: Tables, s: Submission, source: Source, clock: Clock)
    requires Calculator.IsDuplicateRecord(s.data, t.investments)
    ensures ProcessRecord(t, s, source, clock) == Next(t, Rejected(s))
  {
  }

  /** A record that is stored is answered with the record as built: the
      submitted trade, the route's source and the ISO time. */
  lemma SavedRecordIsSubmission(t: Tables, s: Submission, source: Source, clock: Clock)
    requires ProcessRecord(t, s, source, clock).Next? && ProcessRecord(t, s, source, clock).outcome.Saved?
    ensures var r := ProcessRecord(t, s, source, clock).outcome.record;
            && !Calculator.IsDuplicateRecord(s.data, t.investments)
            && Calculator.SameTrade(s.data, r) && r.wonAmount == s.data.wonAmount
            && r.source == source && r.createdAt == clock.iso
            && r.id == AssignedId(t, s) && r.id !in Ids(t.investments)
  {
  }

  /** Without a client id, a record that is not a duplicate never makes the
      route throw at its own insert. */
  lemma GeneratedIdNeverCollides(t: Tables, s: Submission, source: Source, clock: Clock)
    requires s.id.None? && !Calculator.IsDuplicateRecord(s.data, t.investments)
    ensures ProcessRecord(t, s, source, clock).Next? || s.data.kind == Sell
    ensures ProcessRecord(t, s, source, clock).Next? ==> ProcessRecord(t, s, source, clock).outcome.Saved?
  {
    NextIdIsFresh(t.investments);
  }

  /** A purchase only adds its own row. */
  lemma BuyAppends(t: Tables, s: Submission, source: Source, clock: Clock)
    requires s.data.kind == Buy
    requires ProcessRecord(t, s, source, clock).Next?
    requires ProcessRecord(t, s, source, clock).outcome.Saved?
    ensures var st := ProcessRecord(t, s, source, clock);
            && st.tables.profits == t.profits
            && st.tables.investments == t.investments + [st.outcome.record.(createdAt := clock.investmentStamp)]
  {
  }

  /** A sale that closes a pair: the purchase found by `findMatchingBuyRecord`
      and the sale itself leave `investments`, every other row stays, and
      one profit row for the (purchase, sale) pair is appended. */
  lemma MatchedSaleEffect(t: Tables, s: Submission, source: Source, clock: Clock)
    requires ValidTables(t)
    requires ProcessRecord(t, s, source, clock).Next?
    requires var st := ProcessRecord(t, s, source, clock);
             st.outcome.Saved? && |st.tables.profits| > |t.profits|
    ensures var st := ProcessRecord(t, s, source, clock);
            var sell := st.outcome.record;
            var buy := FindMatchingBuyRecord(t.investments, sell);
            && sell.kind == Sell
            && buy.Some?
            && !HasProfitRecord(t.profits, buy.value.id, sell.id)
            && st.tables.investments == Filter(t.investments, IdIsNot(buy.value.id))
            && buy.value.id !in Ids(st.tables.investments)
            && st.tables.profits == t.profits + [ProfitRow(buy.value, sell, clock.profitId).(createdAt := Some(clock.profitStamp))]
  {
    var st := ProcessRecord(t, s, source, clock);
    var sell := st.outcome.record;
    var row := sell.(createdAt := clock.investmentStamp);
    var inv := t.investments + [row];
    var m := FindMatchingBuyRecord(inv, sell);
    assert FindMatchingBuyRecord(inv, sell) == FindMatchingBuyRecord(t.investments, sell) by {
      MatchIgnoresSale(t.investments, row, sell);
    }
    var buy := m.value;
    assert buy in t.investments;
    assert buy.id != sell.id by {
      assert buy.id in Ids(t.investments);
    }
    FilterAppend(t.investments, [row], IdIsNot(buy.id));
    assert Filter([row], IdIsNot(buy.id)) == [row];
    FilterAppend(Filter(t.investments, IdIsNot(buy.id)), [row], IdIsNot(sell.id));
    assert Filter([row], IdIsNot(sell.id)) == [];
    forall x | x in Filter(t.investments, IdIsNot(buy.id)) ensures IdIsNot(sell.id)(x) {
      assert x.id in Ids(t.investments);
    }
    FilterKeepsAll(Filter(t.investments, IdIsNot(buy.id)), IdIsNot(sell.id));
  }

  /** The sale the route stores for submission `s`. */
  function SaleRecord(t: Tables, s: Submission, source: Source, clock: Clock): InvestmentRecord
  {
    NewRecord(AssignedId(t, s), s.data, source, clock.iso)
  }

  /** A new sale with an eligible purchase and no profit row for the pair is
      closed: the purchase leaves `investments`, the sale is not kept open,
      and exactly the pair's profit row is appended. */
  lemma MatchedSaleCloses(t: Tables, s: Submission, source: Source, clock: Clock)
    requires ValidTables(t)
    requires s.data.kind == Sell && !CheckDuplicate(t.investments, s.data)
    requires AssignedId(t, s) !in Ids(t.investments)
    requires var m := FindMatchingBuyRecord(t.investments, SaleRecord(t, s, source, clock));
             m.Some? && !HasProfitRecord(t.profits, m.value.id, AssignedId(t, s))
    requires clock.profitId !in ProfitIds(t.profits)
    ensures var sell := SaleRecord(t, s, source, clock);
            var buy := FindMatchingBuyRecord(t.investments, sell).value;
            ProcessRecord(t, s, source, clock)
            == Next(Tables(Filter(t.investments, IdIsNot(buy.id)),
                           t.profits + [ProfitRow(buy, sell, clock.profitId).(createdAt := Some(clock.profitStamp))]),
                    Saved(sell))
  {
    var sell := SaleRecord(t, s, source, clock);
    MatchIgnoresSale(t.investments, sell.(createdAt := clock.investmentStamp), sell);
    MatchedSaleEffect(t, s, source, clock);
  }

  /** A new sale without an eligible purchase stays open and writes no
      profit row. */
  lemma UnmatchedSaleStaysOpen(t: Tables, s: Submission, source: Source, clock: Clock)
    requires s.data.kind == Sell && !CheckDuplicate(t.investments, s.data)
    requires AssignedId(t, s) !in Ids(t.investments)
    requires FindMatchingBuyRecord(t.investments, SaleRecord(t, s, source, clock)).None?
    ensures var sell := SaleRecord(t, s, source, clock);
            ProcessRecord(t, s, source, clock)
            == Next(Tables(t.investments + [sell.(createdAt := clock.investmentStamp)], t.profits), Saved(sell))
  {
    var sell := SaleRecord(t, s, source, clock);
    MatchIgnoresSale(t.investments, sell.(createdAt := clock.investmentStamp), sell);
  }

  /** A sale that would close a pair under a profit id already taken makes
      `insertProfit` throw after the sale has been stored. */
  lemma ProfitIdCollisionThrows(t: Tables, s: Submission, source: Source, clock: Clock)
    requires s.data.kind == Sell && !CheckDuplicate(t.investments, s.data)
    requires AssignedId(t, s) !in Ids(t.investments)
    requires var m := FindMatchingBuyRecord(t.investments, SaleRecord(t, s, source, clock));
             m.Some? && !HasProfitRecord(t.profits, m.value.id, AssignedId(t, s))
    requires clock.profitId in ProfitIds(t.profits)
    ensures var sell := SaleRecord(t, s, source, clock);
            ProcessRecord(t, s, source, clock)
            == Crash(Tables(t.investments + [sell.(createdAt := clock.investmentStamp)], t.profits))
  {
    var sell := SaleRecord(t, s, source, clock);
    MatchIgnoresSale(t.investments, sell.(createdAt := clock.investmentStamp), sell);
  }

  /** A sale whose purchase already has a profit row for the pair stays
      stored, open, and no profit row is written. */
  lemma ExistingPairLeavesSaleOpen(t: Tables, s: Submission, source: Source, clock: Clock)
    requires s.data.kind == Sell && !CheckDuplicate(t.investments, s.data)
    requires AssignedId(t, s) !in Ids(t.investments)
    requires var m := FindMatchingBuyRecord(t.investments, SaleRecord(t, s, source, clock));
             m.Some? && HasProfitRecord(t.profits, m.value.id, AssignedId(t, s))
    ensures var sell := SaleRecord(t, s, source, clock);
            ProcessRecord(t, s, source, clock)
            == Next(Tables(t.investments + [sell.(createdAt := clock.investmentStamp)], t.profits), Saved(sell))
  {
    var sell := SaleRecord(t, s, source, clock);
    MatchIgnoresSale(t.investments, sell.(createdAt := clock.investmentStamp), sell);
  }

  /** A sale row never matches itself: appending it does not change which
      purchase is found. */
  lemma MatchIgnoresSale(rows: seq<InvestmentRecord>, row: InvestmentRecord, sell: InvestmentRecord)
    requires row.kind == Sell
    ensures FindMatchingBuyRecord(rows + [row], sell) == FindMatchingBuyRecord(rows, sell)
    decreases |rows|
  {
    if rows == [] {
      assert [row][1..] == [];
    } else {
      assert (rows + [row])[1..] == rows[1..] + [row];
      MatchIgnoresSale(rows[1..], row, sell);
    }
  }

  /** Each record keeps the primary keys of both tables intact. */
  lemma ProcessKeepsKeys(t: Tables, s: Submission, source: Source, clock: Clock)
    requires ValidTables(t)
    ensures ValidTables(ProcessRecord(t, s, source, clock).tables)
  {
    if !CheckDuplicate(t.investments, s.data) {
      var id := AssignedId(t, s);
      var record := NewRecord(id, s.data, source, clock.iso);
      if id !in Ids(t.investments) {
        InvestmentsSnocKeepsKeys(t.investments, record.(createdAt := clock.investmentStamp));
        SettleKeepsKeys(Tables(t.investments + [record.(createdAt := clock.investmentStamp)], t.profits), record, clock);
      }
    }
  }

  /** Closing a sale keeps both primary keys unique. */
  lemma SettleKeepsKeys(t: Tables, record: InvestmentRecord, clock: Clock)
    requires ValidTables(t)
    ensures ValidTables(SettleSale(t, record, clock).tables)
  {
    var m := FindMatchingBuyRecord(t.investments, record);
    if m.Some? && clock.profitId !in ProfitIds(t.profits) {
      FilterKeepsUniqueInvestmentIds(t.investments, IdIsNot(m.value.id));
      FilterKeepsUniqueInvestmentIds(Filter(t.investments, IdIsNot(m.value.id)), IdIsNot(record.id));
      ProfitsSnocKeepsKeys(t.profits, ProfitRow(m.value, record, clock.profitId).(createdAt := Some(clock.profitStamp)));
    }
  }

  /** Appending an investment with a new id keeps the key unique. */
  lemma InvestmentsSnocKeepsKeys(rows: seq<InvestmentRecord>, r: InvestmentRecord)
    requires UniqueIds(rows) && r.id !in Ids(rows)
    ensures UniqueIds(rows + [r])
  {
    var inv := rows + [r];
    forall i, j | 0 <= i < j < |inv| ensures inv[i].id != inv[j].id {
      if j == |rows| {
        assert inv[i] in rows;
      } else {
        assert inv[i] == rows[i] && inv[j] == rows[j];
      }
    }
  }

  lemma ProfitsSnocKeepsKeys(profits: seq<ProfitRecord>, p: ProfitRecord)
    requires UniqueProfitIds(profits) && p.id !in ProfitIds(profits)
    ensures UniqueProfitIds(profits + [p])
  {
    var ps := profits + [p];
    forall i, j | 0 <= i < j < |ps| ensures ps[i].id != ps[j].id {
      if j == |profits| {
        assert ps[i] in profits;
      } else {
        assert ps[i] == profits[i] && ps[j] == profits[j];
      }
    }
  }

  // ----- properties of a batch -----

  /** A batch keeps the primary keys intact, also when it stops with an
      error. */
  lemma {:induction false} BatchKeepsKeys(t: Tables, subs: seq<Submission>, source: Source, clocks: seq<Clock>)
    requires ValidTables(t) && |clocks| == |subs|
    ensures ValidTables(RunBatch(t, subs, source, clocks).tables)
    decreases |subs|
  {
    if subs != [] {
      var n := |subs| - 1;
      BatchKeepsKeys(t, subs[..n], source, clocks[..n]);
      var r := RunBatch(t, subs[..n], source, clocks[..n]);
      if r.Completed? {
        ProcessKeepsKeys(r.tables, subs[n], source, clocks[n]);
      }
    }
  }

  /** A completed batch answers every record, in order: a duplicate with the
      submission itself, anything else with a record carrying its trade. */
  lemma {:induction false} BatchAnswersEachRecord(t: Tables, subs: seq<Submission>, source: Source, clocks: seq<Clock>)
    requires |clocks| == |subs|
    requires RunBatch(t, subs, source, clocks).Completed?
    ensures var outs := RunBatch(t, subs, source, clocks).outcomes;
            && |outs| == |subs|
            && forall i :: 0 <= i < |subs| ==> Answered(subs[i], outs[i], source, clocks[i])
    decreases |subs|
  {
    if subs != [] {
      var n := |subs| - 1;
      BatchAnswersEachRecord(t, subs[..n], source, clocks[..n]);
      var pre := RunBatch(t, subs[..n], source, clocks[..n]);
      RunBatchStep(t, subs, source, clocks, n);
      assert subs[..n + 1] == subs && clocks[..n + 1] == clocks;
      RecordAnswer(pre.tables, subs[n], source, clocks[n]);
      AnswersSnoc(subs, clocks, pre.outcomes, ProcessRecord(pre.tables, subs[n], source, clocks[n]).outcome, source);
    }
  }

  /** What a batch answers for one submission: the submission itself when
      rejected, or a stored record carrying its trade, the batch's source
      and the ISO timestamp. */
  predicate Answered(s: Submission, o: Outcome, source: Source, clock: Clock)
  {
    || o == Rejected(s)
    || (o.Saved? && Calculator.SameTrade(s.data, o.record)
        && o.record.source == source && o.record.createdAt == clock.iso)
  }

  lemma AnswersSnoc(subs: seq<Submission>, clocks: seq<Clock>, prev: seq<Outcome>, o: Outcome, source: Source)
    requires |clocks| == |subs| > 0 && |prev| == |subs| - 1
    requires forall i :: 0 <= i < |prev| ==> Answered(subs[..|prev|][i], prev[i], source, clocks[..|prev|][i])
    requires Answered(subs[|prev|], o, source, clocks[|prev|])
    ensures forall i :: 0 <= i < |subs| ==> Answered(subs[i], (prev + [o])[i], source, clocks[i])
  {
    forall i | 0 <= i < |subs| ensures Answered(subs[i], (prev + [o])[i], source, clocks[i]) {
      if i < |prev| {
        assert subs[..|prev|][i] == subs[i] && clocks[..|prev|][i] == clocks[i];
      }
    }
  }

  /** One record's answer. */
  lemma RecordAnswer(t: Tables, s: Submission, source: Source, clock: Clock)
    requires ProcessRecord(t, s, source, clock).Next?
    ensures Answered(s, ProcessRecord(t, s, source, clock).outcome, source, clock)
  {
    if ProcessRecord(t, s, source, clock).outcome.Saved? {
      SavedRecordIsSubmission(t, s, source, clock);
    }
  }

  /** A batch grows one record at a time: the `i`-th record runs on the
      tables the first `i` left behind. */
  lemma RunBatchStep(t: Tables, subs: seq<Submission>, source: Source, clocks: seq<Clock>, i: nat)
    requires |clocks| == |subs| && i < |subs|
    requires RunBatch(t, subs[..i], source, clocks[..i]).Completed?
    ensures var pre := RunBatch(t, subs[..i], source, clocks[..i]);
            RunBatch(t, subs[..i + 1], source, clocks[..i + 1])
            == match ProcessRecord(pre.tables, subs[i], source, clocks[i])
               case Crash(t'') => Failed(t'')
               case Next(t'', o) => Completed(t'', pre.outcomes + [o])
  {
    assert subs[..i + 1][..i] == subs[..i] && clocks[..i + 1][..i] == clocks[..i];
    assert subs[..i + 1][i] == subs[i] && clocks[..i + 1][i] == clocks[i];
  }

  /** The second step of `SameBatchPairsUp`: a sale submitted when the only
      stored row is an eligible purchase closes against it. */
  lemma SaleClosesAgainstStoredBuy(row1: InvestmentRecord, sell: Candidate, source: Source, c2: Clock)
    requires sell.kind == Sell && row1.kind == Buy
    requires Abs(row1.foreignAmount - sell.foreignAmount) < 0.01 && Text.LexLess(row1.date, sell.date)
    ensures var rec2 := NewRecord(GetNextId([row1]), sell, source, c2.iso);
            var p := ProfitRow(row1, rec2, c2.profitId).(createdAt := Some(c2.profitStamp));
            ProcessRecord(Tables([row1], []), Submission(sell, None), source, c2) == Next(Tables([], [p]), Saved(rec2))
  {
    var id2 := GetNextId([row1]);
    NextIdIsFresh([row1]);
    assert id2 != row1.id by {
      assert row1 in [row1];
    }
    assert !CheckDuplicate([row1], sell);
    var rec2 := NewRecord(id2, sell, source, c2.iso);
    assert [row1] + [rec2.(createdAt := c2.investmentStamp)] == [row1, rec2.(createdAt := c2.investmentStamp)];
    SettleAgainstOnlyBuy(row1, rec2.(createdAt := c2.investmentStamp), rec2, c2);
  }

  /** With the sale stored after one eligible purchase, settling closes the
      pair and leaves no open row. */
  lemma SettleAgainstOnlyBuy(row1: InvestmentRecord, row2: InvestmentRecord, rec2: InvestmentRecord, c2: Clock)
    requires row1.kind == Buy && rec2.kind == Sell && row2 == rec2.(createdAt := row2.createdAt)
    requires Abs(row1.foreignAmount - rec2.foreignAmount) < 0.01 && Text.LexLess(row1.date, rec2.date)
    requires row1.id != rec2.id
    ensures var p := ProfitRow(row1, rec2, c2.profitId).(createdAt := Some(c2.profitStamp));
            SettleSale(Tables([row1, row2], []), rec2, c2) == Next(Tables([], [p]), Saved(rec2))
  {
    var inv := [row1, row2];
    assert FindMatchingBuyRecord(inv, rec2) == Some(row1) by {
      assert inv[1..] == [row2];
      assert FindMatchingBuyRecord([row2], rec2).None? by {
        assert [row2][1..] == [];
      }
    }
    assert Filter(inv, IdIsNot(row1.id)) == [row2] by {
      assert inv[1..] == [row2] && [row2][1..] == [];
    }
    assert Filter([row2], IdIsNot(rec2.id)) == [] by {
      assert [row2][1..] == [];
    }
  }

  /** A purchase and a sale submitted in the same batch close against each
      other: the sale is matched against rows stored by earlier records of
      the batch. */
  lemma SameBatchPairsUp(buy: Candidate, sell: Candidate, source: Source, c1: Clock, c2: Clock)
    requires buy.kind == Buy && sell.kind == Sell
    requires Abs(buy.foreignAmount - sell.foreignAmount) < 0.01 && Text.LexLess(buy.date, sell.date)
    ensures var r := RunBatch(Tables([], []), [Submission(buy, None), Submission(sell, None)], source, [c1, c2]);
            && r.Completed?
            && r.tables.investments == []
            && |r.tables.profits| == 1
            && |r.outcomes| == 2 && r.outcomes[0].Saved? && r.outcomes[1].Saved?
            && r.tables.profits[0].buyRecordId == r.outcomes[0].record.id
            && r.tables.profits[0].sellRecordId == r.outcomes[1].record.id
  {
    var rec1 := NewRecord(GetNextId([]), buy, source, c1.iso);
    var row1 := rec1.(createdAt := c1.investmentStamp);
    var rec2 := NewRecord(GetNextId([row1]), sell, source, c2.iso);
    var p := ProfitRow(row1, rec2, c2.profitId).(createdAt := Some(c2.profitStamp));
    BuyIntoEmptyTables(buy, source, c1);
    SaleClosesAgainstStoredBuy(row1, sell, source, c2);
    TwoRecordBatch(Tables([], []), Submission(buy, None), Submission(sell, None), source, c1, c2,
                   Tables([row1], []), Saved(rec1), Tables([], [p]), Saved(rec2));
  }

  /** A batch of two records that both go through. */
  lemma TwoRecordBatch(t0: Tables, s1: Submission, s2: Submission, source: Source, c1: Clock, c2: Clock,
                       t1: Tables, o1: Outcome, t2: Tables, o2: Outcome)
    requires ProcessRecord(t0, s1, source, c1) == Next(t1, o1)
    requires ProcessRecord(t1, s2, source, c2) == Next(t2, o2)
    ensures RunBatch(t0, [s1, s2], source, [c1, c2]) == Completed(t2, [o1, o2])
  {
    OneRecordBatch(t0, s1, source, c1, t1, o1);
    assert [s1, s2][..1] == [s1] && [c1, c2][..1] == [c1];
  }

  /** A batch of one record that goes through. */
  lemma OneRecordBatch(t0: Tables, s1: Submission, source: Source, c1: Clock, t1: Tables, o1: Outcome)
    requires ProcessRecord(t0, s1, source, c1) == Next(t1, o1)
    ensures RunBatch(t0, [s1], source, [c1]) == Completed(t1, [o1])
  {
    assert [s1][..0] == [] && [c1][..0] == [];
  }

  /** The first step of `SameBatchPairsUp`: a purchase submitted to empty
      tables is stored under the first generated id. */
  lemma BuyIntoEmptyTables(buy: Candidate, source: Source, c1: Clock)
    requires buy.kind == Buy
    ensures var rec1 := NewRecord(GetNextId([]), buy, source, c1.iso);
            ProcessRecord(Tables([], []), Submission(buy, None), source, c1)
            == Next(Tables([rec1.(createdAt := c1.investmentStamp)], []), Saved(rec1))
  {
  }

  /** `RunBatchStep` for a record that does not throw. */
  lemma RunBatchNext(t: Tables, subs: seq<Submission>, source: Source, clocks: seq<Clock>, i: nat,
                     before: Tables, outs: seq<Outcome>, after: Tables, o: Outcome)
    requires |clocks| == |subs| && i < |subs|
    requires RunBatch(t, subs[..i], source, clocks[..i]) == Completed(before, outs)
    requires ProcessRecord(before, subs[i], source, clocks[i]) == Next(after, o)
    ensures RunBatch(t, subs[..i + 1], source, clocks[..i + 1]) == Completed(after, outs + [o])
  {
    RunBatchStep(t, subs, source, clocks, i);
  }

  /** `RunBatchStep` for a record that throws: the batch fails there with
      the tables the throw left, whatever follows. */
  lemma RunBatchCrash(t: Tables, subs: seq<Submission>, source: Source, clocks: seq<Clock>, i: nat,
                      before: Tables, outs: seq<Outcome>, after: Tables)
    requires |clocks| == |subs| && i < |subs|
    requires RunBatch(t, subs[..i], source, clocks[..i]) == Completed(before, outs)
    requires ProcessRecord(before, subs[i], source, clocks[i]) == Crash(after)
    ensures RunBatch(t, subs, source, clocks) == Failed(after)
  {
    RunBatchStep(t, subs, source, clocks, i);
    FailureIsFinal(t, subs, source, clocks, i + 1);
  }

  /** A batch stopped by an error stays stopped whatever follows it. */
  lemma {:induction false} FailureIsFinal(t: Tables, subs: seq<Submission>, source: Source, clocks: seq<Clock>, k: nat)
    requires |clocks| == |subs| && k <= |subs|
    requires RunBatch(t, subs[..k], source, clocks[..k]).Failed?
    ensures RunBatch(t, subs, source, clocks) == RunBatch(t, subs[..k], source, clocks[..k])
    decreases |subs| - k
  {
    if k < |subs| {
      var n := |subs| - 1;
      assert subs[..n][..k] == subs[..k] && clocks[..n][..k] == clocks[..k];
      FailureIsFinal(t, subs[..n], source, clocks[..n], k);
    } else {
      assert subs[..k] == subs && clocks[..k] == clocks;
    }
  }

  // ----- the handlers -----

  /** The `if (record.type === 'USD 팔기')` branch of the loop, entered with
      the sale already stored. */
  method HandleSale(store: Store, record: InvestmentRecord, clock: Clock) returns (outcome: Option<Outcome>)
    requires store.Valid()
    modifies store
    ensures store.Valid()
    ensures var st := SettleSale(Tables(old(store.investments), old(store.profits)), record, clock);
            && Tables(store.investments, store.profits) == st.tables
            && (outcome.Some? <==> st.Next?)
            && (st.Next? ==> outcome.value == st.outcome)
  {
    var matching := FindMatchingBuyRecord(store.investments, record);
    if matching.Some? {
      var buy := matching.value;
      var isProfitExist := HasProfitRecord(store.profits, buy.id, record.id);
      if !isProfitExist {
        var profitRecord := ProfitRow(buy, record, clock.profitId);
        var saved := store.InsertProfit(profitRecord, clock.profitStamp);
        if !saved {
          return None;
        }
        var _ := store.DeleteInvestment(buy.id);
        var _ := store.DeleteInvestment(record.id);
      }
    }
    return Some(Saved(record));
  }

  /** The body of the route's loop for one record. `None` stands for the
      exception a failed insert throws. */
  method HandleRecord(store: Store, s: Submission, source: Source, clock: Clock) returns (outcome: Option<Outcome>)
    requires store.Valid()
    modifies store
    ensures store.Valid()
    ensures var st := ProcessRecord(Tables(old(store.investments), old(store.profits)), s, source, clock);
            && Tables(store.investments, store.profits) == st.tables
            && (outcome.Some? <==> st.Next?)
            && (st.Next? ==> outcome.value == st.outcome)
  {
    var isDuplicate := CheckDuplicate(store.investments, s.data);
    if isDuplicate {
      return Some(Rejected(s));
    }
    var id := if s.id.Some? then s.id.value else GetNextId(store.investments);
    var record := NewRecord(id, s.data, source, clock.iso);
    var inserted := store.InsertInvestment(record, clock.investmentStamp);
    if !inserted {
      return None;
    }
    if record.kind == Sell {
      outcome := HandleSale(store, record, clock);
      return;
    }
    return Some(Saved(record));
  }

    /** One pass of the handler's loop, after the records before `i`: the
      batch goes on with the outcome, or fails here with the tables as the
      throw left them. */
  method RecordStep(store: Store, ghost t0: Tables, subs: seq<Submission>, src: Source, clocks: seq<Clock>,
                    i: nat, ghost outs: seq<Outcome>)
    returns (outcome: Option<Outcome>)
    requires store.Valid() && |clocks| == |subs| && i < |subs|
    requires RunBatch(t0, subs[..i], src, clocks[..i]) == Completed(Tables(store.investments, store.profits), outs)
    modifies store
    ensures store.Valid()
    ensures outcome.Some? ==>
              RunBatch(t0, subs[..i + 1], src, clocks[..i + 1]) == Completed(Tables(store.investments, store.profits), outs + [outcome.value])
    ensures outcome.None? ==> RunBatch(t0, subs, src, clocks) == Failed(Tables(store.investments, store.profits))
  {
    ghost var before := Tables(store.investments, store.profits);
    outcome := HandleRecord(store, subs[i], src, clocks[i]);
    if outcome.None? {
      RunBatchCrash(t0, subs, src, clocks, i, before, outs, Tables(store.investments, store.profits));
    } else {
      RunBatchNext(t0, subs, src, clocks, i, before, outs, Tables(store.investments, store.profits), outcome.value);
    }
  }

/** `POST /api/investments`. `records` is absent when the body has no
      array under that key; `source` defaults to `photo`. After the loop
      the duplicate-profit sweep runs over the profits table. */
  method Post(store: Store, records: Option<seq<Submission>>, source: Option<Source>, clocks: seq<Clock>)
    returns (response: PostResponse)
    requires store.Valid()
    requires records.Some? ==> |clocks| == |records.value|
    modifies store
    ensures store.Valid()
    ensures records.None? ==> response == BadRequest
                              && store.investments == old(store.investments) && store.profits == old(store.profits)
    ensures records.Some? ==>
              var src := if source.Some? then source.value else Photo;
              match RunBatch(Tables(old(store.investments), old(store.profits)), records.value, src, clocks)
              case Failed(t) =>
                response == ServerError && store.investments == t.investments && store.profits == t.profits
              case Completed(t, outs) =>
                response == Accepted(outs) && store.investments == t.investments && store.profits == Dedup(t.profits)
  {
    if records.None? {
      return BadRequest;
    }
    var subs := records.value;
    var src := if source.Some? then source.value else Photo;
    ghost var t0 := Tables(store.investments, store.profits);
    var results: seq<Outcome> := [];
    var i := 0;
    assert subs[..0] == [] && clocks[..0] == [];
    while i < |subs|
      invariant 0 <= i <= |subs|
      invariant store.Valid()
      invariant RunBatch(t0, subs[..i], src, clocks[..i]) == Completed(Tables(store.investments, store.profits), results)
    {
      var outcome := RecordStep(store, t0, subs, src, clocks, i, results);
      if outcome.None? {
        return ServerError;
      }
      results := results + [outcome.value];
      i := i + 1;
    }
    assert subs[..i] == subs && clocks[..i] == clocks;
    store.CleanupDuplicateProfits();
    return Accepted(results);
  }

  /** The response of `DELETE`. */
  datatype DeleteResponse = Deleted | NotFound | Cleared

  /** `DELETE /api/investments`. A non-empty `profitId` deletes that profit
      row (404 when there is none); an absent or empty one, which JavaScript
      treats as false, deletes everything in both tables. */
  method Delete(store: Store, profitId: Option<string>) returns (response: DeleteResponse)
    requires store.Valid()
    modifies store
    ensures store.Valid()
    ensures profitId.Some? && profitId.value != "" ==>
              && store.investments == old(store.investments)
              && store.profits == Filter(old(store.profits), ProfitIdIsNot(profitId.value))
              && response != Cleared
              && (response == Deleted <==> profitId.value in ProfitIds(old(store.profits)))
    ensures profitId.None? || profitId.value == "" ==>
              response == Cleared && store.investments == [] && store.profits == []
  {
    if profitId.Some? && profitId.value != "" {
      var changes := store.DeleteProfitById(profitId.value);
      if changes > 0 {
        response := Deleted;
      } else {
        response := NotFound;
      }
    } else {
      store.ClearAllData();
      response := Cleared;
    }
  }
}
