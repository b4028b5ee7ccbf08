/** The record store of `src/lib/database.ts`: the `investments` table of open
    records and the `profits` table of closed pairs, held in memory by the
    class `Store`. The read-only queries (`dbUtils.findMatchingBuyRecord`,
    `checkDuplicate`, `getNextId`, `hasProfitRecord`) are functions over the
    table contents; the statements that change a table are methods of the
    store. Rows are kept in insertion order; SQL promises no order, so no
    contract below depends on it beyond "the first of equals". */
module Database {
  import opened Common
  import opened Text
  import opened Records
  import Calculator

  // ----- Keys and identifiers -----

  /** The PRIMARY KEY constraint of `investments`. */
  predicate UniqueIds(rows: seq<InvestmentRecord>)
  {
    forall i, j :: 0 <= i < j < |rows| ==> rows[i].id != rows[j].id
  }

  /** The PRIMARY KEY constraint of `profits`. */
  predicate UniqueProfitIds(rows: seq<ProfitRecord>)
  {
    forall i, j :: 0 <= i < j < |rows| ==> rows[i].id != rows[j].id
  }

  function Ids(rows: seq<InvestmentRecord>): set<string>
  {
    set r | r in rows :: r.id
  }

  function ProfitIds(rows: seq<ProfitRecord>): set<string>
  {
    set p | p in rows :: p.id
  }

  /** `WHERE id != ?` on `investments`. */
  function IdIsNot(id: string): InvestmentRecord -> bool
  {
    (r: InvestmentRecord) => r.id != id
  }

  /** `WHERE id != ?` on `profits`. */
  function ProfitIdIsNot(id: string): ProfitRecord -> bool
  {
    (p: ProfitRecord) => p.id != id
  }

  /** A profit row that refers to neither side `id`. */
  function NotReferencing(id: string): ProfitRecord -> bool
  {
    (p: ProfitRecord) => p.buyRecordId != id && p.sellRecordId != id
  }

  /** A profit row whose id is not one of `ids`. */
  function IdNotIn(ids: set<string>): ProfitRecord -> bool
  {
    (p: ProfitRecord) => p.id !in ids
  }

  // ----- findMatchingBuyRecord -----

  /** The WHERE clause of the matching query: a purchase whose amount is
      within 0.01 of the sale's and whose date sorts strictly before it as
      text. */
  predicate Eligible(row: InvestmentRecord, sell: InvestmentRecord)
  {
    row.kind == Buy && Abs(row.foreignAmount - sell.foreignAmount) < 0.01 && LexLess(row.date, sell.date)
  }

  /** `ORDER BY date ASC LIMIT 1` over the eligible rows; of several rows with
      the same earliest date the first stored is taken. */
  function FindMatchingBuyRecord(rows: seq<InvestmentRecord>, sell: InvestmentRecord): (r: Option<InvestmentRecord>)
    ensures r.Some? ==> r.value in rows && Eligible(r.value, sell)
    ensures r.None? <==> forall x :: x in rows ==> !Eligible(x, sell)
  {
    if rows == [] then None
    else
      var rest := FindMatchingBuyRecord(rows[1..], sell);
      assert forall x :: x in rows <==> x == rows[0] || x in rows[1..];
      if !Eligible(rows[0], sell) then rest
      else if rest.Some? && LexLess(rest.value.date, rows[0].date) then rest
      else Some(rows[0])
  }

  /** No eligible row is dated strictly before the one returned. */
  lemma {:induction false} FindMatchingIsEarliest(rows: seq<InvestmentRecord>, sell: InvestmentRecord, x: InvestmentRecord)
    requires x in rows && Eligible(x, sell)
    ensures FindMatchingBuyRecord(rows, sell).Some?
    ensures !LexLess(x.date, FindMatchingBuyRecord(rows, sell).value.date)
  {
    var r := FindMatchingBuyRecord(rows, sell).value;
    var rest := FindMatchingBuyRecord(rows[1..], sell);
    if x == rows[0] {
      if r != rows[0] {
        LexLessAsymmetric(r.date, rows[0].date);
      } else {
        LexLessIrreflexive(x.date);
      }
    } else {
      assert x in rows[1..];
      FindMatchingIsEarliest(rows[1..], sell, x);
      if r != rest.value && LexLess(x.date, r.date) {
        // r is rows[0], which does not sort after rest.value
        if x.date != rest.value.date {
          LexLessTotal(x.date, rest.value.date);
          LexLessTransitive(rest.value.date, x.date, r.date);
        }
      }
    }
  }

  // ----- checkDuplicate -----

  /** `SELECT COUNT(*) FROM investments WHERE date = ? AND type = ? AND
      foreignAmount = ? AND exchangeRate = ?`. */
  function DuplicateCount(rows: seq<InvestmentRecord>, c: Candidate): (n: nat)
    ensures n > 0 <==> exists i :: 0 <= i < |rows| && Calculator.SameTrade(c, rows[i])
    ensures n <= |rows|
  {
    if rows == [] then 0
    else
      assert forall i :: 1 <= i < |rows| ==> rows[i] == rows[1..][i - 1];
      (if Calculator.SameTrade(c, rows[0]) then 1 else 0) + DuplicateCount(rows[1..], c)
  }

  /** `count > 0`: the SQL test says the same as the array test of
      `isDuplicateRecord` over the stored rows. */
  function CheckDuplicate(rows: seq<InvestmentRecord>, c: Candidate): (b: bool)
    ensures b == Calculator.IsDuplicateRecord(c, rows)
  {
    DuplicateCount(rows, c) > 0
  }

  // ----- getNextId -----

  /** The number in an id of the form `INV_` followed by decimal digits. */
  function Serial(id: string): (n: Option<nat>)
    ensures n.Some? <==> |id| > 4 && id[..4] == "INV_" && AllDigits(id[4..])
    ensures n.Some? ==> n.value == DecimalValue(id[4..])
  {
    if |id| > 4 && id[..4] == "INV_" && AllDigits(id[4..]) then Some(DecimalValue(id[4..])) else None
  }

  /** The largest serial among the stored ids (`ORDER BY CAST(SUBSTR(id, 5)
      AS INTEGER) DESC LIMIT 1`). */
  function MaxSerial(rows: seq<InvestmentRecord>): (m: Option<nat>)
    ensures m.None? <==> forall x :: x in rows ==> Serial(x.id).None?
    ensures m.Some? ==> exists x :: x in rows && Serial(x.id) == m
    ensures m.Some? ==> forall x :: x in rows && Serial(x.id).Some? ==> Serial(x.id).value <= m.value
  {
    if rows == [] then None
    else
      var rest := MaxSerial(rows[1..]);
      var here := Serial(rows[0].id);
      assert forall x :: x in rows <==> x == rows[0] || x in rows[1..];
      if here.None? then rest
      else if rest.Some? && rest.value > here.value then rest
      else here
  }

  /** The serial the next id carries: above every stored serial, and one
      past a stored serial unless it is the first. */
  function NextSerial(rows: seq<InvestmentRecord>): (n: nat)
    ensures n >= 1
    ensures forall x :: x in rows && Serial(x.id).Some? ==> Serial(x.id).value < n
    ensures n == 1 || exists x :: x in rows && Serial(x.id) == Some(n - 1)
  {
    match MaxSerial(rows)
    case None => 1
    case Some(m) => m + 1
  }

  /** The four-digit-or-longer serial text of the next id. */
  function NextDigits(rows: seq<InvestmentRecord>): (digits: string)
    ensures AllDigits(digits) && DecimalValue(digits) == NextSerial(rows)
  {
    if MaxSerial(rows).None? then
      assert "0001"[..3] == "000" && "000"[..2] == "00" && "00"[..1] == "0";
      "0001"
    else
      var m := MaxSerial(rows).value;
      PadStartValue(NatToString(m + 1), 4);
      PadStart(NatToString(m + 1), 4)
  }

  /** `getNextId`: `INV_0001` on a table without such ids, otherwise `INV_`
      and the largest serial plus one, padded to four digits. */
  function GetNextId(rows: seq<InvestmentRecord>): (id: string)
    ensures Serial(id) == Some(NextSerial(rows))
    ensures forall x :: x in rows && Serial(x.id).Some? ==> Serial(x.id).value < NextSerial(rows)
  {
    var id := "INV_" + NextDigits(rows);
    assert id[..4] == "INV_" && id[4..] == NextDigits(rows);
    id
  }

  /** The id is written as `padStart(4, '0')` writes it: at least four
      digits, and a longer one has no leading zero. With `Serial` this fixes
      the text of the id, not only its number. */
  lemma NextIdText(rows: seq<InvestmentRecord>)
    ensures var id := GetNextId(rows);
            |id| >= 8 && id[..4] == "INV_" && (|id| > 8 ==> id[4] != '0')
  {
    var digits := NextDigits(rows);
    assert GetNextId(rows) == "INV_" + digits;
    assert ("INV_" + digits)[4] == digits[0];
  }

  /** A table without any `INV_` serial, the empty table among them, gets
      `INV_0001`. */
  lemma FirstIdIsOne(rows: seq<InvestmentRecord>)
    requires forall x :: x in rows ==> Serial(x.id).None?
    ensures GetNextId(rows) == "INV_0001"
  {
    assert MaxSerial(rows).None?;
  }

  /** The id handed out is not the id of any stored row. */
  lemma NextIdIsFresh(rows: seq<InvestmentRecord>)
    ensures GetNextId(rows) !in Ids(rows)
  {
    forall x | x in rows ensures x.id != GetNextId(rows) {
      assert Serial(x.id) != Serial(GetNextId(rows));
    }
  }

  /** Ids come from the rows present: once the row that received an id is
      deleted, the same id is handed out again. */
  lemma NextIdReissuedAfterDelete(rows: seq<InvestmentRecord>, r: InvestmentRecord)
    requires r.id == GetNextId(rows)
    ensures GetNextId(Filter(rows + [r], IdIsNot(r.id))) == r.id
  {
    NextIdIsFresh(rows);
    forall x | x in rows ensures IdIsNot(r.id)(x) {
      assert x.id in Ids(rows);
    }
    FilterKeepsAll(rows, IdIsNot(r.id));
    FilterAppend(rows, [r], IdIsNot(r.id));
    assert Filter([r], IdIsNot(r.id)) == [];
    assert Filter(rows + [r], IdIsNot(r.id)) == rows;
  }

  // ----- hasProfitRecord -----

  /** `SELECT COUNT(*) FROM profits WHERE buyRecordId = ? AND sellRecordId = ?`. */
  function PairCount(profits: seq<ProfitRecord>, buyId: string, sellId: string): (n: nat)
    ensures n > 0 <==> exists i :: 0 <= i < |profits| && profits[i].buyRecordId == buyId && profits[i].sellRecordId == sellId
  {
    if profits == [] then 0
    else
      assert forall i :: 1 <= i < |profits| ==> profits[i] == profits[1..][i - 1];
      (if profits[0].buyRecordId == buyId && profits[0].sellRecordId == sellId then 1 else 0)
      + PairCount(profits[1..], buyId, sellId)
  }

  /** `hasProfitRecord`: the pair is directed; a row closing (b, s) says
      nothing about (s, b). */
  function HasProfitRecord(profits: seq<ProfitRecord>, buyId: string, sellId: string): (b: bool)
    ensures b <==> exists p :: p in profits && p.buyRecordId == buyId && p.sellRecordId == sellId
  {
    PairCount(profits, buyId, sellId) > 0
  }

  // ----- cleanupDuplicateProfits, as a function of the table -----

  /** The GROUP BY key of the sweep. */
  function PairOf(p: ProfitRecord): (string, string)
  {
    (p.buyRecordId, p.sellRecordId)
  }

  function HasPair(k: (string, string)): ProfitRecord -> bool
  {
    (p: ProfitRecord) => PairOf(p) == k
  }

  /** The rows of one (buy, sell) pair, in table order. */
  function Group(profits: seq<ProfitRecord>, k: (string, string)): seq<ProfitRecord>
  {
    Filter(profits, HasPair(k))
  }

  /** `ORDER BY createdAt ASC` compares the stored timestamps as text, and
      SQLite sorts NULL before any text. */
  predicate StampLess(a: Option<string>, b: Option<string>)
  {
    match a
    case None => b.Some?
    case Some(x) => b.Some? && LexLess(x, b.value)
  }

  lemma StampLessOrder(a: Option<string>, b: Option<string>, c: Option<string>)
    ensures !StampLess(a, a)
    ensures StampLess(a, b) && StampLess(b, c) ==> StampLess(a, c)
    ensures a != b ==> StampLess(a, b) || StampLess(b, a)
  {
    if a.Some? { LexLessIrreflexive(a.value); }
    if a.Some? && b.Some? && c.Some? && StampLess(a, b) && StampLess(b, c) {
      LexLessTransitive(a.value, b.value, c.value);
    }
    if a.Some? && b.Some? && a != b {
      LexLessTotal(a.value, b.value);
    }
  }

  /** The row `ids[0]` names after the ascending sort: the earliest
      timestamp, the first stored of equals. */
  function Earliest(g: seq<ProfitRecord>): (e: ProfitRecord)
    requires |g| > 0
    ensures e in g
  {
    if |g| == 1 then g[0]
    else
      var e := Earliest(g[1..]);
      if StampLess(e.createdAt, g[0].createdAt) then e else g[0]
  }

  /** No row of the group has an earlier timestamp than the one kept. */
  lemma {:induction false} EarliestIsFirst(g: seq<ProfitRecord>, x: ProfitRecord)
    requires x in g
    ensures !StampLess(x.createdAt, Earliest(g).createdAt)
  {
    var e := Earliest(g);
    if |g| == 1 {
      StampLessOrder(x.createdAt, x.createdAt, x.createdAt);
    } else {
      var e' := Earliest(g[1..]);
      if x == g[0] {
        StampLessOrder(e'.createdAt, g[0].createdAt, g[0].createdAt);
        StampLessOrder(g[0].createdAt, e'.createdAt, g[0].createdAt);
      } else {
        assert x in g[1..];
        EarliestIsFirst(g[1..], x);
        if e == g[0] {
          StampLessOrder(x.createdAt, e'.createdAt, g[0].createdAt);
          StampLessOrder(e'.createdAt, x.createdAt, g[0].createdAt);
        }
      }
    }
  }

  /** `p` is a row the sweep deletes: not the earliest row of its pair. */
  predicate Redundant(profits: seq<ProfitRecord>, p: ProfitRecord)
  {
    var g := Group(profits, PairOf(p));
    |g| > 0 && p.id != Earliest(g).id
  }

  /** The ids the sweep deletes. */
  function Surplus(profits: seq<ProfitRecord>): set<string>
  {
    set p | p in profits && Redundant(profits, p) :: p.id
  }

  /** The profits table after `cleanupDuplicateProfits`. */
  function Dedup(profits: seq<ProfitRecord>): (r: seq<ProfitRecord>)
    ensures |r| <= |profits| && forall p :: p in r ==> p in profits
  {
    Filter(profits, IdNotIn(Surplus(profits)))
  }

  /** No two rows share a (buy, sell) pair. */
  predicate OnePerPair(profits: seq<ProfitRecord>)
  {
    forall i, j :: 0 <= i < j < |profits| ==> PairOf(profits[i]) != PairOf(profits[j])
  }

  lemma SameIdSameRow(profits: seq<ProfitRecord>, p: ProfitRecord, q: ProfitRecord)
    requires UniqueProfitIds(profits) && p in profits && q in profits && p.id == q.id
    ensures p == q
  {
    var i :| 0 <= i < |profits| && profits[i] == p;
    var j :| 0 <= j < |profits| && profits[j] == q;
    assert i == j;
  }

  /** The first row's id appears nowhere later in a table with unique ids. */
  lemma HeadProfitIdFresh(profits: seq<ProfitRecord>, x: ProfitRecord)
    requires UniqueProfitIds(profits) && |profits| > 0 && x in profits[1..]
    ensures x.id != profits[0].id
  {
    var k :| 0 <= k < |profits| - 1 && profits[1..][k] == x;
    assert profits[k + 1] == x;
  }

  lemma {:induction false} FilterKeepsUniqueIds(profits: seq<ProfitRecord>, f: ProfitRecord -> bool)
    requires UniqueProfitIds(profits)
    ensures UniqueProfitIds(Filter(profits, f))
  {
    if profits != [] {
      var rest := profits[1..];
      assert UniqueProfitIds(rest) by {
        forall i, j | 0 <= i < j < |rest| ensures rest[i].id != rest[j].id {
          assert rest[i] == profits[i + 1] && rest[j] == profits[j + 1];
        }
      }
      FilterKeepsUniqueIds(rest, f);
      var head := if f(profits[0]) then [profits[0]] else [];
      var r := head + Filter(rest, f);
      forall i, j | 0 <= i < j < |r| ensures r[i].id != r[j].id {
        if i < |head| {
          HeadProfitIdFresh(profits, r[j]);
        } else {
          assert r[i] == Filter(rest, f)[i - |head|] && r[j] == Filter(rest, f)[j - |head|];
        }
      }
    }
  }

  /** The survivor of a pair stays in the table. */
  lemma EarliestSurvives(profits: seq<ProfitRecord>, k: (string, string))
    requires UniqueProfitIds(profits) && |Group(profits, k)| > 0
    ensures Earliest(Group(profits, k)) in Dedup(profits)
  {
    var e := Earliest(Group(profits, k));
    assert e in profits && PairOf(e) == k;
    forall p | p in profits && p.id == e.id ensures !Redundant(profits, p) {
      SameIdSameRow(profits, p, e);
    }
    assert e.id !in Surplus(profits);
  }

  /** After the sweep, each (buy, sell) pair has at most one row. */
  lemma DedupOnePerPair(profits: seq<ProfitRecord>)
    requires UniqueProfitIds(profits)
    ensures OnePerPair(Dedup(profits))
  {
    var d := Dedup(profits);
    FilterKeepsUniqueIds(profits, IdNotIn(Surplus(profits)));
    forall i, j | 0 <= i < j < |d| ensures PairOf(d[i]) != PairOf(d[j]) {
      assert d[i] in d && d[j] in d;
      assert !Redundant(profits, d[i]) && !Redundant(profits, d[j]);
      assert d[i] in Group(profits, PairOf(d[i])) && d[j] in Group(profits, PairOf(d[j]));
    }
  }

  /** The row that survives has the earliest timestamp of its pair. */
  lemma DedupKeepsEarliest(profits: seq<ProfitRecord>, p: ProfitRecord, q: ProfitRecord)
    requires UniqueProfitIds(profits)
    requires p in Dedup(profits) && q in profits && PairOf(q) == PairOf(p)
    ensures !StampLess(q.createdAt, p.createdAt)
  {
    var g := Group(profits, PairOf(p));
    assert q in g;
    assert !Redundant(profits, p);
    SameIdSameRow(profits, p, Earliest(g));
    EarliestIsFirst(g, q);
  }

  /** Every pair present before the sweep is present after it. */
  lemma DedupKeepsEveryPair(profits: seq<ProfitRecord>, q: ProfitRecord)
    requires UniqueProfitIds(profits) && q in profits
    ensures exists p :: p in Dedup(profits) && PairOf(p) == PairOf(q)
  {
    var g := Group(profits, PairOf(q));
    assert q in g;
    EarliestSurvives(profits, PairOf(q));
    assert Earliest(g) in g;
  }

  /** The only row of a group is its earliest one. */
  lemma OnlyRow(g: seq<ProfitRecord>, p: ProfitRecord)
    requires p in g
    ensures |g| == 1 ==> Earliest(g) == p
  {
  }

  /** A row that is alone with its pair is untouched. */
  lemma DedupKeepsSingletons(profits: seq<ProfitRecord>, q: ProfitRecord)
    requires UniqueProfitIds(profits) && q in profits && |Group(profits, PairOf(q))| == 1
    ensures q in Dedup(profits)
  {
    var g := Group(profits, PairOf(q));
    assert q in g;
    OnlyRow(g, q);
    EarliestSurvives(profits, PairOf(q));
  }

  /** A table without repeated pairs is left as it is. */
  lemma DedupNoDuplicates(profits: seq<ProfitRecord>)
    requires UniqueProfitIds(profits) && OnePerPair(profits)
    ensures Dedup(profits) == profits
  {
    forall p | p in profits ensures !Redundant(profits, p) {
      var g := Group(profits, PairOf(p));
      assert p in g;
      forall x | x in g ensures x == p {
        var i :| 0 <= i < |profits| && profits[i] == p;
        var j :| 0 <= j < |profits| && profits[j] == x;
        assert i == j;
      }
      assert Earliest(g) in g;
    }
    assert Surplus(profits) == {};
    FilterKeepsAll(profits, IdNotIn(Surplus(profits)));
  }

  /** Running the sweep twice gives the state of running it once. */
  lemma DedupIdempotent(profits: seq<ProfitRecord>)
    requires UniqueProfitIds(profits)
    ensures Dedup(Dedup(profits)) == Dedup(profits)
  {
    DedupOnePerPair(profits);
    FilterKeepsUniqueIds(profits, IdNotIn(Surplus(profits)));
    DedupNoDuplicates(Dedup(profits));
  }

  // ----- the sweep's working sets -----

  /** `GROUP BY buyRecordId, sellRecordId HAVING cnt > 1`. */
  function DuplicatePairs(profits: seq<ProfitRecord>): set<(string, string)>
  {
    set p | p in profits && |Group(profits, PairOf(p))| > 1 :: PairOf(p)
  }

  lemma DuplicatePairRows(profits: seq<ProfitRecord>, k: (string, string))
    requires k in DuplicatePairs(profits)
    ensures |Group(profits, k)| > 1
  {
    var p :| p in profits && |Group(profits, PairOf(p))| > 1 && PairOf(p) == k;
  }

  /** A deleted row belongs to a pair with several rows. */
  lemma RedundantInDuplicatePair(profits: seq<ProfitRecord>, p: ProfitRecord)
    requires p in profits && Redundant(profits, p)
    ensures PairOf(p) in DuplicatePairs(profits)
  {
    var g := Group(profits, PairOf(p));
    assert p in g;
    OnlyRow(g, p);
  }

  /** The surplus ids of the pairs in `done`. */
  function SurplusOf(profits: seq<ProfitRecord>, done: set<(string, string)>): set<string>
  {
    set p | p in profits && PairOf(p) in done && Redundant(profits, p) :: p.id
  }

  /** `ids.slice(1)`: the rows of a group after its earliest one. */
  function Later(g: seq<ProfitRecord>): seq<ProfitRecord>
    requires |g| > 0
  {
    Filter(g, ProfitIdIsNot(Earliest(g).id))
  }

  /** `.map(row => row.id)`. */
  function IdList(rows: seq<ProfitRecord>): (ids: seq<string>)
    ensures |ids| == |rows| && forall i :: 0 <= i < |rows| ==> ids[i] == rows[i].id
  {
    seq(|rows|, i requires 0 <= i < |rows| => rows[i].id)
  }

  lemma ProfitIdsSnoc(rows: seq<ProfitRecord>, x: ProfitRecord)
    ensures ProfitIds(rows + [x]) == ProfitIds(rows) + {x.id}
  {
    assert forall p :: p in rows + [x] <==> p in rows || p == x;
  }

  /** Deleting rows of other pairs leaves the rows of pair `k` as they were. */
  lemma GroupUnaffected(orig: seq<ProfitRecord>, removed: set<string>, done: set<(string, string)>, k: (string, string))
    requires UniqueProfitIds(orig) && k !in done
    requires removed == SurplusOf(orig, done)
    ensures Group(Filter(orig, IdNotIn(removed)), k) == Group(orig, k)
  {
    FilterFilter(orig, IdNotIn(removed), HasPair(k));
    forall x | x in orig ensures And(IdNotIn(removed), HasPair(k))(x) == HasPair(k)(x) {
      if PairOf(x) == k {
        forall p | p in orig && p.id == x.id ensures PairOf(p) !in done {
          SameIdSameRow(orig, p, x);
        }
        assert x.id !in removed;
      }
    }
    FilterExt(orig, And(IdNotIn(removed), HasPair(k)), HasPair(k));
  }

  /** The ids listed in `ids`. */
  function Elems(ids: seq<string>): set<string>
  {
    set id | id in ids
  }

  lemma ElemsSnoc(ids: seq<string>, j: nat)
    requires j < |ids|
    ensures Elems(ids[..j + 1]) == Elems(ids[..j]) + {ids[j]}
  {
    PrefixSnoc(ids, j);
  }

  lemma IdListElems(rows: seq<ProfitRecord>)
    ensures Elems(IdList(rows)) == ProfitIds(rows)
  {
    var ids := IdList(rows);
    forall id | id in ProfitIds(rows) ensures id in ids {
      var p :| p in rows && p.id == id;
      var i :| 0 <= i < |rows| && rows[i] == p;
      assert ids[i] == id;
    }
  }

  /** Deleting one more id by `DELETE FROM profits WHERE id = ?`. */
  lemma RemoveOneMore(orig: seq<ProfitRecord>, removed: set<string>, id: string)
    ensures Filter(Filter(orig, IdNotIn(removed)), ProfitIdIsNot(id)) == Filter(orig, IdNotIn(removed + {id}))
  {
    FilterFilter(orig, IdNotIn(removed), ProfitIdIsNot(id));
    FilterExt(orig, And(IdNotIn(removed), ProfitIdIsNot(id)), IdNotIn(removed + {id}));
  }

  /** Deleting the ids `b` from a table already without the ids `a`. */
  lemma RemoveMore(orig: seq<ProfitRecord>, a: set<string>, b: set<string>)
    ensures Filter(Filter(orig, IdNotIn(a)), IdNotIn(b)) == Filter(orig, IdNotIn(a + b))
  {
    FilterFilter(orig, IdNotIn(a), IdNotIn(b));
    FilterExt(orig, And(IdNotIn(a), IdNotIn(b)), IdNotIn(a + b));
  }

  /** The ids the inner loop deletes for pair `k` are its surplus ids. */
  lemma GroupSurplusIds(orig: seq<ProfitRecord>, done: set<(string, string)>, k: (string, string))
    requires |Group(orig, k)| > 0
    ensures SurplusOf(orig, done + {k}) == SurplusOf(orig, done) + ProfitIds(Later(Group(orig, k)))
  {
    LaterAreSurplus(orig, done, k);
    EarlierSurplusKept(orig, done, k);
    SurplusIsEarlierOrLater(orig, done, k);
  }

  /** Every row of a group after its earliest is surplus once its pair is done. */
  lemma LaterAreSurplus(orig: seq<ProfitRecord>, done: set<(string, string)>, k: (string, string))
    requires |Group(orig, k)| > 0
    ensures ProfitIds(Later(Group(orig, k))) <= SurplusOf(orig, done + {k})
  {
    var g := Group(orig, k);
    var later := Later(g);
    forall id | id in ProfitIds(later) ensures id in SurplusOf(orig, done + {k}) {
      var p :| p in later && p.id == id;
      assert p in g;
      assert p in orig && PairOf(p) == k;
      assert Redundant(orig, p);
    }
  }

  /** Marking one more pair done keeps the surplus found so far. */
  lemma EarlierSurplusKept(orig: seq<ProfitRecord>, done: set<(string, string)>, k: (string, string))
    ensures SurplusOf(orig, done) <= SurplusOf(orig, done + {k})
  {
    forall id | id in SurplusOf(orig, done) ensures id in SurplusOf(orig, done + {k}) {
      var p :| p in orig && PairOf(p) in done && Redundant(orig, p) && p.id == id;
      assert PairOf(p) in done + {k};
    }
  }

  /** The surplus with pair `k` done comes from the earlier pairs or from `k`'s later rows. */
  lemma SurplusIsEarlierOrLater(orig: seq<ProfitRecord>, done: set<(string, string)>, k: (string, string))
    requires |Group(orig, k)| > 0
    ensures SurplusOf(orig, done + {k}) <= SurplusOf(orig, done) + ProfitIds(Later(Group(orig, k)))
  {
    var g := Group(orig, k);
    var later := Later(g);
    forall id | id in SurplusOf(orig, done + {k}) ensures id in SurplusOf(orig, done) || id in ProfitIds(later) {
      var p :| p in orig && PairOf(p) in done + {k} && Redundant(orig, p) && p.id == id;
      SurplusRowPlace(orig, done, k, p);
    }
  }

  /** Where one redundant row's id lands: with the earlier pairs, or among `k`'s later rows. */
  lemma SurplusRowPlace(orig: seq<ProfitRecord>, done: set<(string, string)>, k: (string, string), p: ProfitRecord)
    requires |Group(orig, k)| > 0
    requires p in orig && PairOf(p) in done + {k} && Redundant(orig, p)
    ensures p.id in SurplusOf(orig, done) || p.id in ProfitIds(Later(Group(orig, k)))
  {
    if PairOf(p) == k {
      var g := Group(orig, k);
      assert HasPair(k)(p);
      assert p in g;
      assert ProfitIdIsNot(Earliest(g).id)(p);
      assert p in Later(g);
    } else {
      assert PairOf(p) in done;
    }
  }

  /** Moving the pair just handled from the pairs to do to the pairs done. */
  lemma MovePair(todo: set<(string, string)>, done: set<(string, string)>, k: (string, string))
    requires k in todo && todo !! done
    ensures (todo - {k}) !! (done + {k}) && (todo - {k}) + (done + {k}) == todo + done
    ensures |todo - {k}| < |todo|
  {
    assert (todo - {k}) + {k} == todo;
  }

  /** One round of the outer loop: the rows of pair `dup` that the earlier
      rounds left are all of its rows, and deleting the ones after the
      earliest adds exactly that pair's surplus to what has been deleted. */
  lemma CleanupStep(orig: seq<ProfitRecord>, done: set<(string, string)>, dup: (string, string))
    requires UniqueProfitIds(orig) && dup in DuplicatePairs(orig) && dup !in done
    ensures var now := Filter(orig, IdNotIn(SurplusOf(orig, done)));
            && |Group(now, dup)| > 0
            && Filter(now, IdNotIn(Elems(IdList(Later(Group(now, dup)))))) == Filter(orig, IdNotIn(SurplusOf(orig, done + {dup})))
  {
    var now := Filter(orig, IdNotIn(SurplusOf(orig, done)));
    DuplicatePairRows(orig, dup);
    GroupUnaffected(orig, SurplusOf(orig, done), done, dup);
    GroupSurplusIds(orig, done, dup);
    IdListElems(Later(Group(orig, dup)));
    RemoveMore(orig, SurplusOf(orig, done), ProfitIds(Later(Group(orig, dup))));
  }

  /** Once every duplicated pair is done, the deleted ids are the surplus. */
  lemma AllDuplicatesDone(orig: seq<ProfitRecord>)
    ensures SurplusOf(orig, DuplicatePairs(orig)) == Surplus(orig)
  {
    forall id | id in Surplus(orig) ensures id in SurplusOf(orig, DuplicatePairs(orig)) {
      var p :| p in orig && Redundant(orig, p) && p.id == id;
      RedundantInDuplicatePair(orig, p);
    }
  }

  // ----- the store -----

  class Store {
    var investments: seq<InvestmentRecord>
    var profits: seq<ProfitRecord>

    /** The primary keys of both tables hold. */
    ghost predicate Valid()
      reads this
    {
      UniqueIds(investments) && UniqueProfitIds(profits)
    }

    /** A store whose two tables are empty. */
    constructor ()
      ensures Valid() && investments == [] && profits == []
    {
      investments := [];
      profits := [];
    }

    /** `insertInvestment`. The INSERT names no `createdAt` column, so the
        stored row receives the database clock `now` (`CURRENT_TIMESTAMP`)
        whatever the record carried. A taken id violates the primary key:
        the statement fails (`ok` false) and nothing changes. */
    method InsertInvestment(r: InvestmentRecord, now: string) returns (ok: bool)
      requires Valid()
      modifies this
      ensures Valid()
      ensures ok <==> r.id !in Ids(old(investments))
      ensures investments == if ok then old(investments) + [r.(createdAt := now)] else old(investments)
      ensures profits == old(profits)
    {
      ok := r.id !in Ids(investments);
      if ok {
        investments := investments + [r.(createdAt := now)];
      }
    }

    /** `insertProfit`, with the same two outcomes as `InsertInvestment`. */
    method InsertProfit(p: ProfitRecord, now: string) returns (ok: bool)
      requires Valid()
      modifies this
      ensures Valid()
      ensures ok <==> p.id !in ProfitIds(old(profits))
      ensures profits == if ok then old(profits) + [p.(createdAt := Some(now))] else old(profits)
      ensures investments == old(investments)
    {
      ok := p.id !in ProfitIds(profits);
      if ok {
        profits := profits + [p.(createdAt := Some(now))];
      }
    }

    /** `deleteInvestment`: `DELETE FROM investments WHERE id = ?`;
        `changes` is the number of rows removed. */
    method DeleteInvestment(id: string) returns (changes: nat)
      requires Valid()
      modifies this
      ensures Valid()
      ensures investments == Filter(old(investments), IdIsNot(id)) && profits == old(profits)
      ensures changes == |old(investments)| - |investments|
      ensures changes > 0 <==> id in Ids(old(investments))
    {
      var before := investments;
      investments := Filter(investments, IdIsNot(id));
      changes := |before| - |investments|;
      FilterShorter(before, IdIsNot(id));
      assert UniqueIds(investments) by {
        FilterKeepsUniqueInvestmentIds(before, IdIsNot(id));
      }
    }

    /** `deleteProfitsByInvestmentId`: every profit row that names `id` on
        either side. */
    method DeleteProfitsByInvestmentId(id: string) returns (changes: nat)
      requires Valid()
      modifies this
      ensures Valid()
      ensures profits == Filter(old(profits), NotReferencing(id)) && investments == old(investments)
      ensures changes == |old(profits)| - |profits|
      ensures changes > 0 <==> exists p :: p in old(profits) && (p.buyRecordId == id || p.sellRecordId == id)
    {
      var before := profits;
      profits := Filter(profits, NotReferencing(id));
      changes := |before| - |profits|;
      FilterShorter(before, NotReferencing(id));
      FilterKeepsUniqueIds(before, NotReferencing(id));
    }

    /** `deleteProfitById`: `DELETE FROM profits WHERE id = ?`. */
    method DeleteProfitById(id: string) returns (changes: nat)
      requires Valid()
      modifies this
      ensures Valid()
      ensures profits == Filter(old(profits), ProfitIdIsNot(id)) && investments == old(investments)
      ensures changes == |old(profits)| - |profits|
      ensures changes > 0 <==> id in ProfitIds(old(profits))
    {
      var before := profits;
      profits := Filter(profits, ProfitIdIsNot(id));
      changes := |before| - |profits|;
      FilterShorter(before, ProfitIdIsNot(id));
      FilterKeepsUniqueIds(before, ProfitIdIsNot(id));
    }

    /** `clearAllData`: both tables emptied. */
    method ClearAllData()
      requires Valid()
      modifies this
      ensures Valid() && profits == [] && investments == []
    {
      profits := [];
      investments := [];
    }

    /** The inner loop of `cleanupDuplicateProfits`: `DELETE FROM profits
        WHERE id = ?` for each id in turn. */
    method DeleteProfitIds(ids: seq<string>)
      requires Valid()
      modifies this
      ensures Valid() && investments == old(investments)
      ensures profits == Filter(old(profits), IdNotIn(Elems(ids)))
    {
      ghost var start := profits;
      assert Elems(ids[..0]) == {};
      FilterKeepsAll(start, IdNotIn({}));
      var j := 0;
      while j < |ids|
        invariant 0 <= j <= |ids|
        invariant Valid() && investments == old(investments)
        invariant profits == Filter(start, IdNotIn(Elems(ids[..j])))
      {
        var _ := DeleteProfitById(ids[j]);
        RemoveOneMore(start, Elems(ids[..j]), ids[j]);
        ElemsSnoc(ids, j);
        j := j + 1;
      }
      assert ids[..j] == ids;
    }

    /** `cleanupDuplicateProfits`: for every (buy, sell) pair with more than
        one row, the rows after the earliest are deleted. */
    method CleanupDuplicateProfits()
      requires Valid()
      modifies this
      ensures Valid()
      ensures profits == Dedup(old(profits)) && investments == old(investments)
    {
      ghost var orig := profits;
      var duplicates := DuplicatePairs(profits);
      ghost var done: set<(string, string)> := {};
      assert SurplusOf(orig, {}) == {};
      FilterKeepsAll(orig, IdNotIn({}));
      while duplicates != {}
        invariant Valid() && investments == old(investments)
        invariant duplicates !! done && duplicates + done == DuplicatePairs(orig)
        invariant profits == Filter(orig, IdNotIn(SurplusOf(orig, done)))
        decreases |duplicates|
      {
        var dup :| dup in duplicates;
        CleanupStep(orig, done, dup);
        var group := Group(profits, dup);
        var idsToDelete := IdList(Later(group));
        DeleteProfitIds(idsToDelete);
        MovePair(duplicates, done, dup);
        done := done + {dup};
        duplicates := duplicates - {dup};
      }
      AllDuplicatesDone(orig);
    }
  }

  /** The first row's id appears nowhere later in a table with unique ids. */
  lemma HeadInvestmentIdFresh(rows: seq<InvestmentRecord>, x: InvestmentRecord)
    requires UniqueIds(rows) && |rows| > 0 && x in rows[1..]
    ensures x.id != rows[0].id
  {
    var k :| 0 <= k < |rows| - 1 && rows[1..][k] == x;
    assert rows[k + 1] == x;
  }

  lemma {:induction false} FilterKeepsUniqueInvestmentIds(rows: seq<InvestmentRecord>, f: InvestmentRecord -> bool)
    requires UniqueIds(rows)
    ensures UniqueIds(Filter(rows, f))
  {
    if rows != [] {
      var rest := rows[1..];
      assert UniqueIds(rest) by {
        forall i, j | 0 <= i < j < |rest| ensures rest[i].id != rest[j].id {
          assert rest[i] == rows[i + 1] && rest[j] == rows[j + 1];
        }
      }
      FilterKeepsUniqueInvestmentIds(rest, f);
      var head := if f(rows[0]) then [rows[0]] else [];
      var r := head + Filter(rest, f);
      forall i, j | 0 <= i < j < |r| ensures r[i].id != r[j].id {
        if i < |head| {
          HeadInvestmentIdFresh(rows, r[j]);
        } else {
          assert r[i] == Filter(rest, f)[i - |head|] && r[j] == Filter(rest, f)[j - |head|];
        }
      }
    }
  }
}
