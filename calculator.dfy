/** The pure helpers of `src/utils/investmentCalculator.ts`: an exact-match
    buy finder, the profit calculation, the duplicate test and the grouping
    of records by month. JavaScript `Date` parsing is not modelled: the
    chronological test `new Date(a) < new Date(b)` and the month key derived
    from a date are parameters. */
module Calculator {
  import opened Common
  import opened Records

  /** The condition `findMatchingBuyRecord` hands to `find`: a purchase with
      the very same amount and rate, dated before the sale. */
  predicate ExactMatch(sell: InvestmentRecord, r: InvestmentRecord, before: (string, string) -> bool)
  {
    && r.kind == Buy
    && r.foreignAmount == sell.foreignAmount
    && r.exchangeRate == sell.exchangeRate
    && before(r.date, sell.date)
  }

  /** `buyRecords.find(...) || null`: the first exact match in array order. */
  function FindMatchingBuyRecord(sell: InvestmentRecord, buyRecords: seq<InvestmentRecord>,
                                 before: (string, string) -> bool): (r: Option<InvestmentRecord>)
    ensures r.None? <==> forall i :: 0 <= i < |buyRecords| ==> !ExactMatch(sell, buyRecords[i], before)
    ensures r.Some? ==> exists i :: 0 <= i < |buyRecords| && buyRecords[i] == r.value
                                    && ExactMatch(sell, r.value, before)
                                    && forall j :: 0 <= j < i ==> !ExactMatch(sell, buyRecords[j], before)
  {
    if buyRecords == [] then None
    else if ExactMatch(sell, buyRecords[0], before) then Some(buyRecords[0])
    else
      var r := FindMatchingBuyRecord(sell, buyRecords[1..], before);
      assert forall i :: 1 <= i < |buyRecords| ==> buyRecords[i] == buyRecords[1..][i - 1];
      r
  }

  /** `calculateProfit`: both sides valued at amount times rate. `id` is the
      random `profit_...` identifier, an input here; the record carries no
      creation time. */
  function CalculateProfit(buy: InvestmentRecord, sell: InvestmentRecord, id: string): (p: ProfitRecord)
    ensures p.id == id && p.createdAt.None?
    ensures p.buyRecordId == buy.id && p.sellRecordId == sell.id
    ensures p.buyDate == buy.date && p.sellDate == sell.date
    ensures p.foreignAmount == sell.foreignAmount
    ensures p.buyRate == buy.exchangeRate && p.sellRate == sell.exchangeRate
    ensures p.buyWonAmount == buy.foreignAmount * buy.exchangeRate
    ensures p.sellWonAmount == sell.foreignAmount * sell.exchangeRate
    ensures p.profit == p.sellWonAmount - p.buyWonAmount
    ensures p.profitRate.Finite? <==> p.buyWonAmount != 0.0
    ensures p.profitRate.Finite? ==> p.profitRate.value * p.buyWonAmount == p.profit * 100.0
  {
    var buyAmount := buy.foreignAmount * buy.exchangeRate;
    var sellAmount := sell.foreignAmount * sell.exchangeRate;
    var profit := sellAmount - buyAmount;
    ProfitRecord(id, buy.date, sell.date, buy.id, sell.id, sell.foreignAmount,
                 buy.exchangeRate, sell.exchangeRate, buyAmount, sellAmount,
                 profit, Percent(profit, buyAmount), None)
  }

  /** With positive amounts and rates the profit rate is a finite number
      with the sign of the profit. */
  lemma ProfitRateSign(buy: InvestmentRecord, sell: InvestmentRecord, id: string)
    requires buy.foreignAmount > 0.0 && buy.exchangeRate > 0.0
    ensures CalculateProfit(buy, sell, id).profitRate.Finite?
    ensures CalculateProfit(buy, sell, id).profitRate.value > 0.0 <==> CalculateProfit(buy, sell, id).profit > 0.0
    ensures CalculateProfit(buy, sell, id).profitRate.value < 0.0 <==> CalculateProfit(buy, sell, id).profit < 0.0
  {
    var p := CalculateProfit(buy, sell, id);
    assert p.buyWonAmount > 0.0;
    PercentSign(p.profit, p.buyWonAmount);
  }

  /** 100 dollars bought at 1300 and sold at 1350 earn 5000 won, 50/13 percent. */
  lemma ProfitExample(buy: InvestmentRecord, sell: InvestmentRecord, id: string)
    requires buy.foreignAmount == 100.0 && buy.exchangeRate == 1300.0
    requires sell.foreignAmount == 100.0 && sell.exchangeRate == 1350.0
    ensures CalculateProfit(buy, sell, id).profit == 5000.0
    ensures CalculateProfit(buy, sell, id).profitRate == Finite(50.0 / 13.0)
  {
  }

  /** The four fields `isDuplicateRecord` compares. */
  predicate SameTrade(c: Candidate, r: InvestmentRecord)
  {
    r.date == c.date && r.kind == c.kind && r.foreignAmount == c.foreignAmount && r.exchangeRate == c.exchangeRate
  }

  /** `existingRecords.some(...)`. */
  function IsDuplicateRecord(c: Candidate, existing: seq<InvestmentRecord>): (b: bool)
    ensures b <==> exists i :: 0 <= i < |existing| && SameTrade(c, existing[i])
  {
    if existing == [] then false
    else
      assert forall i :: 1 <= i < |existing| ==> existing[i] == existing[1..][i - 1];
      SameTrade(c, existing[0]) || IsDuplicateRecord(c, existing[1..])
  }

  /** The id, won amount, source and creation time play no part: records that
      agree on date, type, amount and rate give the same answer. */
  lemma {:induction false} IsDuplicateIgnoresBookkeeping(c: Candidate, c': Candidate,
                                                         e: seq<InvestmentRecord>, e': seq<InvestmentRecord>)
    requires c.date == c'.date && c.kind == c'.kind
    requires c.foreignAmount == c'.foreignAmount && c.exchangeRate == c'.exchangeRate
    requires |e| == |e'|
    requires forall i :: 0 <= i < |e| ==> e[i].date == e'[i].date && e[i].kind == e'[i].kind
                                          && e[i].foreignAmount == e'[i].foreignAmount
                                          && e[i].exchangeRate == e'[i].exchangeRate
    ensures IsDuplicateRecord(c, e) == IsDuplicateRecord(c', e')
  {
    if e != [] {
      IsDuplicateIgnoresBookkeeping(c, c', e[1..], e'[1..]);
    }
  }

  /** The filter that selects the records of month `k`. */
  function InMonth(monthKey: string -> string, k: string): InvestmentRecord -> bool
  {
    (r: InvestmentRecord) => monthKey(r.date) == k
  }

  /** The month keys of `records`, gathered from the first record to the
      last. */
  function MonthKeys(records: seq<InvestmentRecord>, monthKey: string -> string): set<string>
  {
    if records == [] then {}
    else MonthKeys(records[..|records| - 1], monthKey) + {monthKey(records[|records| - 1].date)}
  }

  /** The keys are exactly the months that occur. */
  lemma {:induction false} MonthKeysOccur(records: seq<InvestmentRecord>, monthKey: string -> string, k: string)
    ensures k in MonthKeys(records, monthKey) <==> exists i :: 0 <= i < |records| && monthKey(records[i].date) == k
  {
    if records != [] {
      var n := |records| - 1;
      MonthKeysOccur(records[..n], monthKey, k);
      if k in MonthKeys(records[..n], monthKey) {
        var i :| 0 <= i < n && monthKey(records[..n][i].date) == k;
        assert records[i] == records[..n][i];
      }
      if exists i :: 0 <= i < |records| && monthKey(records[i].date) == k {
        var i :| 0 <= i < |records| && monthKey(records[i].date) == k;
        if i < n {
          assert records[..n][i] == records[i];
        }
      }
    }
  }

  lemma MonthKeysSnoc(records: seq<InvestmentRecord>, x: InvestmentRecord, monthKey: string -> string)
    ensures MonthKeys(records + [x], monthKey) == MonthKeys(records, monthKey) + {monthKey(x.date)}
  {
    assert (records + [x])[..|records|] == records;
  }

  /** One step of the accumulator: appending `record` to the list of its
      month keeps every list equal to the filter of the records seen. */
  lemma GroupStep(prefix: seq<InvestmentRecord>, record: InvestmentRecord, monthKey: string -> string,
                  groups: map<string, seq<InvestmentRecord>>, mid: map<string, seq<InvestmentRecord>>,
                  groups': map<string, seq<InvestmentRecord>>)
    requires groups.Keys == MonthKeys(prefix, monthKey)
    requires forall k :: k in groups ==> groups[k] == Filter(prefix, InMonth(monthKey, k))
    requires var key := monthKey(record.date);
             && mid == (if key in groups then groups else groups[key := []])
             && groups' == mid[key := mid[key] + [record]]
    ensures groups'.Keys == MonthKeys(prefix + [record], monthKey)
    ensures forall k :: k in groups' ==> groups'[k] == Filter(prefix + [record], InMonth(monthKey, k))
  {
    MonthKeysSnoc(prefix, record, monthKey);
    forall k | k !in groups ensures Filter(prefix, InMonth(monthKey, k)) == [] {
      NewMonthIsEmpty(prefix, monthKey, k);
    }
    GroupValuesStep(prefix, record, monthKey, groups, mid, groups');
  }

  lemma GroupValuesStep(prefix: seq<InvestmentRecord>, record: InvestmentRecord, monthKey: string -> string,
                        groups: map<string, seq<InvestmentRecord>>, mid: map<string, seq<InvestmentRecord>>,
                        groups': map<string, seq<InvestmentRecord>>)
    requires forall k :: k in groups ==> groups[k] == Filter(prefix, InMonth(monthKey, k))
    requires forall k :: k !in groups ==> Filter(prefix, InMonth(monthKey, k)) == []
    requires var key := monthKey(record.date);
             && mid == (if key in groups then groups else groups[key := []])
             && groups' == mid[key := mid[key] + [record]]
    ensures forall k :: k in groups' ==> groups'[k] == Filter(prefix + [record], InMonth(monthKey, k))
  {
    var key := monthKey(record.date);
    forall k | k in groups' ensures groups'[k] == Filter(prefix + [record], InMonth(monthKey, k)) {
      var before := if k in groups then groups[k] else [];
      assert groups'[k] == if k == key then before + [record] else before;
      GroupAt(prefix, record, monthKey, before, k);
    }
  }

  /** The list of month `k` after one more record. */
  lemma GroupAt(prefix: seq<InvestmentRecord>, record: InvestmentRecord, monthKey: string -> string,
                before: seq<InvestmentRecord>, k: string)
    requires before == Filter(prefix, InMonth(monthKey, k))
    ensures (if monthKey(record.date) == k then before + [record] else before)
            == Filter(prefix + [record], InMonth(monthKey, k))
  {
    FilterAppend(prefix, [record], InMonth(monthKey, k));
    assert [record][1..] == [];
  }

  /** A month that has not occurred yet has no records. */
  lemma NewMonthIsEmpty(prefix: seq<InvestmentRecord>, monthKey: string -> string, k: string)
    requires k !in MonthKeys(prefix, monthKey)
    ensures Filter(prefix, InMonth(monthKey, k)) == []
  {
    forall x | x in prefix ensures !InMonth(monthKey, k)(x) {
      var i :| 0 <= i < |prefix| && prefix[i] == x;
      MonthKeysOccur(prefix, monthKey, k);
    }
    FilterKeepsNone(prefix, InMonth(monthKey, k));
  }

  /** `groupRecordsByMonth`: a dictionary from month key to the records of
      that month, each list in input order. */
  method GroupRecordsByMonth(records: seq<InvestmentRecord>, monthKey: string -> string)
    returns (groups: map<string, seq<InvestmentRecord>>)
    ensures groups.Keys == MonthKeys(records, monthKey)
    ensures forall k :: k in groups ==> groups[k] == Filter(records, InMonth(monthKey, k))
  {
    groups := map[];
    var i := 0;
    while i < |records|
      invariant 0 <= i <= |records|
      invariant groups.Keys == MonthKeys(records[..i], monthKey)
      invariant forall k :: k in groups ==> groups[k] == Filter(records[..i], InMonth(monthKey, k))
    {
      var record := records[i];
      var key := monthKey(record.date);
      ghost var before := groups;
      if key !in groups {
        groups := groups[key := []];
      }
      ghost var mid := groups;
      groups := groups[key := groups[key] + [record]];
      GroupStep(records[..i], record, monthKey, before, mid, groups);
      PrefixSnoc(records, i);
      i := i + 1;
    }
    assert records[..i] == records;
  }

  /** The groups partition the input: every occurrence of a record lands in
      the group of its own month, and in no other group. */
  lemma GroupsPartition(records: seq<InvestmentRecord>, monthKey: string -> string, x: InvestmentRecord, k: string)
    ensures k == monthKey(x.date) ==> multiset(Filter(records, InMonth(monthKey, k)))[x] == multiset(records)[x]
    ensures k != monthKey(x.date) ==> x !in Filter(records, InMonth(monthKey, k))
  {
    FilterCount(records, InMonth(monthKey, k), x);
  }
}
