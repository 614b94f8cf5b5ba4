/** The dashboard's figures for the current month: the month's transactions,
    their income and expense sums, the balance, and the five most recent
    entries of the list the service returns. */
module Dashboard {
  import opened Base
  import opened Text
  import opened Types
  import opened Calendar
  import opened Constants
  import opened Api

  /** `transactions.filter(t => t.date.startsWith(currentMonth))`. */
  function MonthTransactions(txs: seq<Transaction>, currentMonth: string): (r: seq<Transaction>)
    ensures forall t :: t in r <==> t in txs && StartsWith(t.date, currentMonth)
    ensures forall t {:trigger multiset(r)[t]} :: multiset(r)[t] == if StartsWith(t.date, currentMonth) then multiset(txs)[t] else 0
    ensures IsSubsequence(r, txs)
  {
    FilterIsSubsequence((t: Transaction) => StartsWith(t.date, currentMonth), txs);
    Filter((t: Transaction) => StartsWith(t.date, currentMonth), txs)
  }

  /** `monthTxs.filter(t => t.type === 'income').reduce(+)`. */
  function MonthIncome(monthTxs: seq<Transaction>): real
  {
    Total(Filter((t: Transaction) => t.kind == TxType.Income, monthTxs))
  }

  /** `monthTxs.filter(t => t.type === 'expense').reduce(+)`. */
  function MonthExpense(monthTxs: seq<Transaction>): real
  {
    Total(Filter((t: Transaction) => t.kind == TxType.Expense, monthTxs))
  }

  /** `income - expense` over the month of `currentMonth`. */
  function Balance(txs: seq<Transaction>, currentMonth: string): real
  {
    var monthTxs := MonthTransactions(txs, currentMonth);
    MonthIncome(monthTxs) - MonthExpense(monthTxs)
  }

  /** `transactions.slice(0, 5)`. */
  function Recent(txs: seq<Transaction>): (r: seq<Transaction>)
    ensures |r| == if |txs| < 5 then |txs| else 5
    ensures r <= txs
  {
    if |txs| < 5 then txs else txs[..5]
  }

  /** Together the two sums account for every amount of the month. */
  lemma IncomeExpenseSplitMonth(monthTxs: seq<Transaction>)
    ensures MonthIncome(monthTxs) + MonthExpense(monthTxs) == Total(monthTxs)
  {
    TotalSplit((t: Transaction) => t.kind == TxType.Income, (t: Transaction) => t.kind == TxType.Expense, monthTxs);
  }

  lemma FilterNonnegative(p: Transaction -> bool, s: seq<Transaction>)
    requires forall i :: 0 <= i < |s| ==> s[i].amount >= 0.0
    ensures Total(Filter(p, s)) >= 0.0
  {
    var f := Filter(p, s);
    forall i | 0 <= i < |f| ensures f[i].amount >= 0.0 {
      assert f[i] in s;
    }
    TotalNonnegative(f);
  }

  /** With non-negative amounts, income and expenses are non-negative. */
  lemma IncomeExpenseNonnegative(monthTxs: seq<Transaction>)
    requires forall i :: 0 <= i < |monthTxs| ==> monthTxs[i].amount >= 0.0
    ensures MonthIncome(monthTxs) >= 0.0 && MonthExpense(monthTxs) >= 0.0
  {
    FilterNonnegative((t: Transaction) => t.kind == TxType.Income, monthTxs);
    FilterNonnegative((t: Transaction) => t.kind == TxType.Expense, monthTxs);
  }

  /** The balance does not depend on the order of the list, so the sort in
      `getTransactions` cannot change it. */
  lemma BalanceOrderIndependent(a: seq<Transaction>, b: seq<Transaction>, currentMonth: string)
    requires multiset(a) == multiset(b)
    ensures Balance(a, currentMonth) == Balance(b, currentMonth)
  {
    var ma, mb := MonthTransactions(a, currentMonth), MonthTransactions(b, currentMonth);
    FilterPermutation((t: Transaction) => StartsWith(t.date, currentMonth), a, b);
    FilterPermutation((t: Transaction) => t.kind == TxType.Income, ma, mb);
    FilterPermutation((t: Transaction) => t.kind == TxType.Expense, ma, mb);
    TotalPermutation(Filter((t: Transaction) => t.kind == TxType.Income, ma),
                     Filter((t: Transaction) => t.kind == TxType.Income, mb));
    TotalPermutation(Filter((t: Transaction) => t.kind == TxType.Expense, ma),
                     Filter((t: Transaction) => t.kind == TxType.Expense, mb));
  }

  lemma IncomeOfThree(s: seq<Transaction>)
    requires |s| == 3 && s[0].kind == TxType.Income && s[1].kind == TxType.Expense && s[2].kind == TxType.Expense
    ensures Filter((t: Transaction) => t.kind == TxType.Income, s) == [s[0]]
  {
    var p := (t: Transaction) => t.kind == TxType.Income;
    var s1, s2 := s[1..], s[2..];
    assert s1[0] == s[1] && s1[1..] == s2 && s2[0] == s[2] && s2[1..] == [];
    FilterCons(p, s2);
    FilterCons(p, s1);
    FilterCons(p, s);
  }

  lemma ExpenseOfThree(s: seq<Transaction>)
    requires |s| == 3 && s[0].kind == TxType.Income && s[1].kind == TxType.Expense && s[2].kind == TxType.Expense
    ensures Filter((t: Transaction) => t.kind == TxType.Expense, s) == [s[1], s[2]]
  {
    var p := (t: Transaction) => t.kind == TxType.Expense;
    var s1, s2 := s[1..], s[2..];
    assert s1[0] == s[1] && s1[1..] == s2 && s2[0] == s[2] && s2[1..] == [];
    FilterCons(p, s2);
    assert Filter(p, s2) == [s[2]];
    FilterCons(p, s1);
    assert Filter(p, s1) == [s[1]] + [s[2]] == [s[1], s[2]];
    FilterCons(p, s);
    assert Filter(p, s) == [] + Filter(p, s1);
  }

  /** The sums over one income entry followed by two expense entries. */
  lemma ThreeEntryFigures(s: seq<Transaction>)
    requires |s| == 3 && s[0].kind == TxType.Income && s[1].kind == TxType.Expense && s[2].kind == TxType.Expense
    ensures MonthIncome(s) == s[0].amount
    ensures MonthExpense(s) == s[1].amount + s[2].amount
  {
    IncomeOfThree(s);
    ExpenseOfThree(s);
    var inc, exp := [s[0]], [s[1], s[2]];
    assert inc[1..] == [] && exp[1..] == [s[2]] && exp[1..][1..] == [];
    assert Total(inc) == s[0].amount + Total([]);
    assert Total(exp) == s[1].amount + (s[2].amount + Total([]));
    assert MonthIncome(s) == Total(inc);
    assert MonthExpense(s) == Total(exp);
  }

  /** On the demo seed the month shows income 5000, expenses 1620.50 and a
      balance of 3379.50. */
  lemma DemoMonthFigures(seed: seq<Transaction>, today: YearMonth, now: string)
    requires ValidMonth(today) && IsDemoSeed(seed, today, now)
    ensures MonthTransactions(seed, MonthKey(today)) == seed
    ensures MonthIncome(seed) == 5000.0
    ensures MonthExpense(seed) == 1620.5
    ensures Balance(seed, MonthKey(today)) == 3379.5
  {
    assert forall i :: 0 <= i < |seed| ==> StartsWith(seed[i].date, MonthKey(today));
    FilterKeepsAll((t: Transaction) => StartsWith(t.date, MonthKey(today)), seed);
    ThreeEntryFigures(seed);
  }

  /** The dashboard reads the sorted list `getTransactions()` returns; its
      balance equals the balance over the stored records that are not
      deleted, in any order. */
  lemma DashboardOverServiceList(stored: seq<Transaction>, currentMonth: string)
    ensures Balance(ListTransactions(stored, None, None), currentMonth) ==
            Balance(Filter((t: Transaction) => !t.deleted, stored), currentMonth)
  {
    var listed := ListTransactions(stored, None, None);
    var active := Filter((t: Transaction) => !t.deleted, stored);
    assert forall t :: Selected(t, None, None) == !t.deleted;
    assert forall t :: multiset(listed)[t] == multiset(active)[t];
    assert multiset(listed) == multiset(active);
    BalanceOrderIndependent(listed, active, currentMonth);
  }
}
