/** The six-month income/expense trend of the reports page: one bucket per
    calendar month, oldest first, ending at the current month; each bucket
    sums the amounts of the transactions whose date falls in its month. */
module Reports {
  import opened Base
  import opened Text
  import opened Types
  import opened Calendar
  import opened Dashboard

  /** `{ name, income, expense }`. */
  datatype MonthBucket = MonthBucket(name: string, income: real, expense: real)

  /** The six months before and including `current` have four-digit years. */
  predicate TrendWindowValid(current: YearMonth)
  {
    ValidMonth(current) && MonthIndex(current) >= 5
  }

  /** The month of bucket `j`: `5 - j` months before `current`. */
  function TrendMonth(current: YearMonth, j: nat): (ym: YearMonth)
    requires TrendWindowValid(current) && j < 6
    ensures ValidMonth(ym)
    ensures MonthIndex(ym) == MonthIndex(current) - 5 + j
  {
    MonthsBefore(current, 5 - j)
  }

  /** The `YYYY-MM` key of bucket `j`. */
  function TrendKey(current: YearMonth, j: nat): string
    requires TrendWindowValid(current) && j < 6
  {
    MonthKey(TrendMonth(current, j))
  }

  /** The short month name bucket `j` is labelled with. */
  function TrendLabel(current: YearMonth, j: nat): string
    requires TrendWindowValid(current) && j < 6
  {
    ShortMonthName(TrendMonth(current, j).month)
  }

  /** `t.date.slice(0, 7)` is `key` and `t` is an income. */
  predicate IncomeIn(t: Transaction, key: string)
  {
    Take(t.date, 7) == key && t.kind == TxType.Income
  }

  /** `t.date.slice(0, 7)` is `key` and `t` is not an income (the `else`). */
  predicate ExpenseIn(t: Transaction, key: string)
  {
    Take(t.date, 7) == key && t.kind != TxType.Income
  }

  /** The income a bucket with key `key` ends with. */
  function TrendIncome(txs: seq<Transaction>, key: string): real
  {
    Total(Filter((t: Transaction) => IncomeIn(t, key), txs))
  }

  /** The expense a bucket with key `key` ends with. */
  function TrendExpense(txs: seq<Transaction>, key: string): real
  {
    Total(Filter((t: Transaction) => ExpenseIn(t, key), txs))
  }

  /** The bucket `j` ends as. */
  function TrendBucket(txs: seq<Transaction>, current: YearMonth, j: nat): MonthBucket
    requires TrendWindowValid(current) && j < 6
  {
    MonthBucket(TrendLabel(current, j), TrendIncome(txs, TrendKey(current, j)), TrendExpense(txs, TrendKey(current, j)))
  }

  /** The six buckets are six consecutive months, oldest first, and the last
      one is the current month. */
  lemma TrendMonthsConsecutive(current: YearMonth)
    requires TrendWindowValid(current)
    ensures forall j :: 0 <= j < 5 ==> MonthIndex(TrendMonth(current, j + 1)) == MonthIndex(TrendMonth(current, j)) + 1
    ensures TrendMonth(current, 5) == current
  {
    MonthIndexInjective(TrendMonth(current, 5), current);
  }

  /** The six keys are pairwise different. */
  lemma TrendKeysDistinct(current: YearMonth, a: nat, b: nat)
    requires TrendWindowValid(current) && a < 6 && b < 6 && a != b
    ensures TrendKey(current, a) != TrendKey(current, b)
  {
    if TrendKey(current, a) == TrendKey(current, b) {
      MonthKeyInjective(TrendMonth(current, a), TrendMonth(current, b));
    }
  }

  /** Adding one transaction at the end adds its amount to the bucket of its
      month and side, and to no other. */
  lemma TrendSnoc(s: seq<Transaction>, t: Transaction, key: string)
    ensures TrendIncome(s + [t], key) == TrendIncome(s, key) + if IncomeIn(t, key) then t.amount else 0.0
    ensures TrendExpense(s + [t], key) == TrendExpense(s, key) + if ExpenseIn(t, key) then t.amount else 0.0
  {
    var pi := (x: Transaction) => IncomeIn(x, key);
    var pe := (x: Transaction) => ExpenseIn(x, key);
    FilterAppend(pi, s, [t]);
    FilterAppend(pe, s, [t]);
    FilterCons(pi, [t]);
    FilterCons(pe, [t]);
    assert [t][1..] == [];
    TotalAppend(Filter(pi, s), Filter(pi, [t]));
    TotalAppend(Filter(pe, s), Filter(pe, [t]));
    assert Total([t]) == t.amount + Total([]);
  }

  /** After `n` steps of the first loop: `keys` holds the keys of buckets
      `0 .. n - 1` in order, `data` has exactly those keys, each with an
      empty bucket of its month's label. */
  ghost predicate BucketsUpTo(current: YearMonth, data: map<string, MonthBucket>, keys: seq<string>)
    requires TrendWindowValid(current)
  {
    |keys| <= 6
    && (forall j :: 0 <= j < |keys| ==> keys[j] == TrendKey(current, j))
    && (forall k :: k in data <==> k in keys)
    && (forall j :: 0 <= j < |keys| ==> data[keys[j]] == MonthBucket(TrendLabel(current, j), 0.0, 0.0))
  }

  /** Recording a new key: the key set grows by it and every earlier
      bucket is kept. */
  lemma BucketInsert(data: map<string, MonthBucket>, keys: seq<string>, key: string, b: MonthBucket)
    requires forall k :: k in data <==> k in keys
    requires key !in keys
    ensures forall k :: k in data[key := b] <==> k in keys + [key]
    ensures forall j :: 0 <= j < |keys| ==> data[key := b][keys[j]] == data[keys[j]]
  {
    forall j | 0 <= j < |keys| ensures keys[j] != key {
      assert keys[j] in keys;
    }
  }

  /** The key of the next bucket is none of the earlier ones. */
  lemma NextKeyFresh(current: YearMonth, keys: seq<string>)
    requires TrendWindowValid(current) && |keys| < 6
    requires forall j :: 0 <= j < |keys| ==> keys[j] == TrendKey(current, j)
    ensures TrendKey(current, |keys|) !in keys
  {
    forall j | 0 <= j < |keys| ensures keys[j] != TrendKey(current, |keys|) {
      TrendKeysDistinct(current, j, |keys|);
    }
  }

  /** One step of the first loop: the next key is new, and recording it
      with an empty bucket keeps `BucketsUpTo` one step further. */
  lemma EmptyBucketStep(current: YearMonth, data: map<string, MonthBucket>, keys: seq<string>)
    requires TrendWindowValid(current) && BucketsUpTo(current, data, keys) && |keys| < 6
    ensures TrendKey(current, |keys|) !in data
    ensures BucketsUpTo(current, data[TrendKey(current, |keys|) := MonthBucket(TrendLabel(current, |keys|), 0.0, 0.0)],
                        keys + [TrendKey(current, |keys|)])
  {
    var n := |keys|;
    var key, b := TrendKey(current, n), MonthBucket(TrendLabel(current, n), 0.0, 0.0);
    NextKeyFresh(current, keys);
    BucketInsert(data, keys, key, b);
    var data', keys' := data[key := b], keys + [key];
    forall j | 0 <= j < |keys'|
      ensures keys'[j] == TrendKey(current, j) && data'[keys'[j]] == MonthBucket(TrendLabel(current, j), 0.0, 0.0)
    {
      if j < n {
        assert keys'[j] == keys[j];
      }
    }
  }

  /** The first loop of `getMonthlyData`: an empty bucket per month, keyed
      by `YYYY-MM`, counting down from five months back. `keys` is the
      record's insertion order, which `Object.values` follows for keys that
      are not array indices. */
  method EmptyBuckets(current: YearMonth) returns (data: map<string, MonthBucket>, keys: seq<string>)
    requires TrendWindowValid(current)
    ensures |keys| == 6
    ensures forall j :: 0 <= j < 6 ==> keys[j] == TrendKey(current, j)
    ensures forall k :: k in data <==> k in keys
    ensures forall j :: 0 <= j < 6 ==> data[keys[j]] == MonthBucket(TrendLabel(current, j), 0.0, 0.0)
  {
    data := map[];
    keys := [];
    var i := 5;
    while i >= 0
      invariant -1 <= i <= 5
      invariant |keys| == 5 - i
      invariant BucketsUpTo(current, data, keys)
    {
      var d := MonthsBefore(current, i);
      var key := MonthKey(d);
      var name := ShortMonthName(d.month);
      assert d == TrendMonth(current, |keys|);
      EmptyBucketStep(current, data, keys);
      if key !in data {
        keys := keys + [key];
      }
      data := data[key := MonthBucket(name, 0.0, 0.0)];
      i := i - 1;
    }
  }

  /** One `forEach` step: the bucket of the transaction's key, if there is
      one, gains its amount on its side. */
  method AddToBucket(data: map<string, MonthBucket>, t: Transaction) returns (data': map<string, MonthBucket>)
    ensures forall k :: k in data' <==> k in data
    ensures forall k :: k in data ==>
      data'[k] == data[k].(income := data[k].income + (if IncomeIn(t, k) then t.amount else 0.0),
                           expense := data[k].expense + (if ExpenseIn(t, k) then t.amount else 0.0))
  {
    data' := data;
    var key := Take(t.date, 7);
    if key in data {
      if t.kind == TxType.Income {
        data' := data[key := data[key].(income := data[key].income + t.amount)];
      } else {
        data' := data[key := data[key].(expense := data[key].expense + t.amount)];
      }
    }
  }

  /** After a step every bucket holds the sums over one more transaction. */
  lemma BucketsStep(data: map<string, MonthBucket>, data': map<string, MonthBucket>, s: seq<Transaction>, t: Transaction)
    requires forall k :: k in data ==> data[k].income == TrendIncome(s, k) && data[k].expense == TrendExpense(s, k)
    requires forall k :: k in data' <==> k in data
    requires forall k :: k in data ==>
      data'[k] == data[k].(income := data[k].income + (if IncomeIn(t, k) then t.amount else 0.0),
                           expense := data[k].expense + (if ExpenseIn(t, k) then t.amount else 0.0))
    ensures forall k :: k in data' ==> data'[k].income == TrendIncome(s + [t], k) && data'[k].expense == TrendExpense(s + [t], k)
    ensures forall k :: k in data ==> data'[k].name == data[k].name
  {
    forall k | k in data' ensures data'[k].income == TrendIncome(s + [t], k) && data'[k].expense == TrendExpense(s + [t], k) {
      TrendSnoc(s, t, k);
    }
  }

  /** `getMonthlyData()` over `transactions` in month `current`: six
      buckets, oldest month first, each holding its month's income and
      expense sums. */
  method MonthlyData(transactions: seq<Transaction>, current: YearMonth) returns (r: seq<MonthBucket>)
    requires TrendWindowValid(current)
    ensures |r| == 6
    ensures forall j :: 0 <= j < 6 ==> r[j] == TrendBucket(transactions, current, j)
  {
    var data, keys := EmptyBuckets(current);
    assert transactions[..0] == [];
    var n := 0;
    while n < |transactions|
      invariant 0 <= n <= |transactions|
      invariant forall k :: k in data <==> k in keys
      invariant forall j :: 0 <= j < 6 ==> data[keys[j]].name == TrendLabel(current, j)
      invariant forall k :: k in data ==>
        data[k].income == TrendIncome(transactions[..n], k) && data[k].expense == TrendExpense(transactions[..n], k)
    {
      var t := transactions[n];
      var data' := AddToBucket(data, t);
      assert transactions[..n + 1] == transactions[..n] + [t];
      BucketsStep(data, data', transactions[..n], t);
      data := data';
      n := n + 1;
    }
    assert transactions[..n] == transactions;
    r := seq(6, j requires 0 <= j < 6 => data[keys[j]]);
  }

  /** A bucket's sums do not depend on the order of the transactions. */
  lemma TrendOrderIndependent(a: seq<Transaction>, b: seq<Transaction>, key: string)
    requires multiset(a) == multiset(b)
    ensures TrendIncome(a, key) == TrendIncome(b, key)
    ensures TrendExpense(a, key) == TrendExpense(b, key)
  {
    FilterPermutation((t: Transaction) => IncomeIn(t, key), a, b);
    FilterPermutation((t: Transaction) => ExpenseIn(t, key), a, b);
    TotalPermutation(Filter((t: Transaction) => IncomeIn(t, key), a), Filter((t: Transaction) => IncomeIn(t, key), b));
    TotalPermutation(Filter((t: Transaction) => ExpenseIn(t, key), a), Filter((t: Transaction) => ExpenseIn(t, key), b));
  }

  /** A transaction dated outside the six months changes no bucket. */
  lemma TrendIgnoresOutside(s: seq<Transaction>, t: Transaction, current: YearMonth)
    requires TrendWindowValid(current)
    requires forall j :: 0 <= j < 6 ==> Take(t.date, 7) != TrendKey(current, j)
    ensures forall j :: 0 <= j < 6 ==> TrendBucket(s + [t], current, j) == TrendBucket(s, current, j)
  {
    forall j | 0 <= j < 6 ensures TrendBucket(s + [t], current, j) == TrendBucket(s, current, j) {
      TrendSnoc(s, t, TrendKey(current, j));
    }
  }

  /** A bucket's income and expense together are every amount dated in its month. */
  lemma TrendBucketTotal(s: seq<Transaction>, key: string)
    ensures TrendIncome(s, key) + TrendExpense(s, key) == Total(Filter((t: Transaction) => Take(t.date, 7) == key, s))
  {
    var inMonth := (t: Transaction) => Take(t.date, 7) == key;
    var isIncome := (t: Transaction) => t.kind == TxType.Income;
    var notIncome := (t: Transaction) => t.kind != TxType.Income;
    FilterFilter(inMonth, isIncome, (t: Transaction) => IncomeIn(t, key), s);
    FilterFilter(inMonth, notIncome, (t: Transaction) => ExpenseIn(t, key), s);
    TotalSplit(isIncome, notIncome, Filter(inMonth, s));
  }

  /** The last bucket agrees with the dashboard's figures for the current
      month: `slice(0, 7) === key` and `startsWith(key)` are the same test
      for a seven-character key, and a non-income is an expense. */
  lemma TrendMatchesDashboard(s: seq<Transaction>, key: string)
    requires |key| == 7
    ensures TrendIncome(s, key) == MonthIncome(MonthTransactions(s, key))
    ensures TrendExpense(s, key) == MonthExpense(MonthTransactions(s, key))
  {
    var starts := (t: Transaction) => StartsWith(t.date, key);
    forall t: Transaction ensures IncomeIn(t, key) == (StartsWith(t.date, key) && t.kind == TxType.Income) {
      TakeIsPrefixTest(t.date, key, 7);
    }
    forall t: Transaction ensures ExpenseIn(t, key) == (StartsWith(t.date, key) && t.kind == TxType.Expense) {
      TakeIsPrefixTest(t.date, key, 7);
    }
    FilterFilter(starts, (t: Transaction) => t.kind == TxType.Income, (t: Transaction) => IncomeIn(t, key), s);
    FilterFilter(starts, (t: Transaction) => t.kind == TxType.Expense, (t: Transaction) => ExpenseIn(t, key), s);
  }

  // ---------------------------------------------------------------------
  // `d.setMonth(d.getMonth() - i)` keeps the day of the month, and a day
  // past the end of the target month rolls over into the next month.

  /** The month `setMonth` lands in from day `day` of `today`, `i` months back. */
  function SetMonthBack(today: YearMonth, day: int, i: nat): (ym: YearMonth)
    requires 1 <= today.month <= 12
  {
    var target := MonthsBefore(today, i);
    if day > DaysInMonth(target) then NextMonth(target) else target
  }

  /** The six bucket months as the loop computes them on day `day`. */
  function BucketMonthsAsWritten(today: YearMonth, day: int): (r: seq<YearMonth>)
    requires 1 <= today.month <= 12
    ensures |r| == 6
  {
    [SetMonthBack(today, day, 5), SetMonthBack(today, day, 4), SetMonthBack(today, day, 3),
     SetMonthBack(today, day, 2), SetMonthBack(today, day, 1), SetMonthBack(today, day, 0)]
  }

  /** On 31 March 2025 two pairs of iterations land in the same month, so the
      record gets only four keys: November and February are missing. */
  lemma SetMonthOverflowDropsMonths()
    ensures var r := BucketMonthsAsWritten(YearMonth(2025, 3), 31);
      && r[1] == r[2] == YearMonth(2024, 12)
      && r[4] == r[5] == YearMonth(2025, 3)
      && YearMonth(2024, 11) !in r && YearMonth(2025, 2) !in r
  {
    March31Buckets(YearMonth(2025, 3), 31);
  }

  lemma March31Buckets(today: YearMonth, day: int)
    requires today == YearMonth(2025, 3) && day == 31
    ensures SetMonthBack(today, day, 5) == YearMonth(2024, 10)
    ensures SetMonthBack(today, day, 4) == YearMonth(2024, 12)
    ensures SetMonthBack(today, day, 3) == YearMonth(2024, 12)
    ensures SetMonthBack(today, day, 2) == YearMonth(2025, 1)
    ensures SetMonthBack(today, day, 1) == YearMonth(2025, 3)
    ensures SetMonthBack(today, day, 0) == YearMonth(2025, 3)
  {
    SetMonthBackAt(today, day, 5, YearMonth(2024, 10), YearMonth(2024, 10));
    SetMonthBackAt(today, day, 4, YearMonth(2024, 11), YearMonth(2024, 12));
    SetMonthBackAt(today, day, 3, YearMonth(2024, 12), YearMonth(2024, 12));
    SetMonthBackAt(today, day, 2, YearMonth(2025, 1), YearMonth(2025, 1));
    SetMonthBackAt(today, day, 1, YearMonth(2025, 2), YearMonth(2025, 3));
    SetMonthBackAt(today, day, 0, YearMonth(2025, 3), YearMonth(2025, 3));
  }

  /** `SetMonthBack` lands in `landed` when the target month is `target`
      and the day overflows it exactly when `landed` is the next month. */
  lemma SetMonthBackAt(today: YearMonth, day: int, i: nat, target: YearMonth, landed: YearMonth)
    requires 1 <= today.month <= 12 && 1 <= target.month <= 12 && 1 <= landed.month <= 12
    requires MonthIndex(target) == MonthIndex(today) - i
    requires day > DaysInMonth(target) ==> MonthIndex(landed) == MonthIndex(target) + 1
    requires day <= DaysInMonth(target) ==> landed == target
    ensures SetMonthBack(today, day, i) == landed
  {
    MonthIndexInjective(MonthsBefore(today, i), target);
    if day > DaysInMonth(target) {
      MonthIndexInjective(NextMonth(target), landed);
    }
  }

  /** The intended bucket months, by month arithmetic alone: six distinct
      consecutive months on every day. */
  function BucketMonths(current: YearMonth): (r: seq<YearMonth>)
    requires TrendWindowValid(current)
    ensures |r| == 6
    ensures forall j :: 0 <= j < 6 ==> r[j] == TrendMonth(current, j)
  {
    seq(6, j requires 0 <= j < 6 => TrendMonth(current, j))
  }

  /** Every month of the window has exactly one bucket. */
  lemma BucketMonthsDistinct(current: YearMonth)
    requires TrendWindowValid(current)
    ensures forall a, b :: 0 <= a < b < 6 ==> BucketMonths(current)[a] != BucketMonths(current)[b]
  {
    forall a, b | 0 <= a < b < 6 ensures BucketMonths(current)[a] != BucketMonths(current)[b] {
      TrendKeysDistinct(current, a, b);
    }
  }
}
