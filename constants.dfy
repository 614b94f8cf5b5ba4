/** The seed data: 5 default income categories, 8 default expense
    categories, the demo user id and the three demo transactions dated in
    the month the application is loaded. */
module Constants {
  import opened Base
  import opened Text
  import opened Types
  import opened Calendar

  const MockUserId: string := "demo-user-123"

  /** `DEFAULT_INCOME_CATEGORIES`. */
  function DefaultIncomeCategories(): (r: seq<Category>)
    ensures |r| == 5
    ensures forall i :: 0 <= i < |r| ==>
      r[i].kind == Income && r[i].isDefault == Some(true) && r[i].userId == None
  {
    [ Category("inc-1", "Salary", Income, None, "#1E88E5", None, Some(true)),
      Category("inc-2", "Freelance", Income, None, "#00BFA5", None, Some(true)),
      Category("inc-3", "Investments", Income, None, "#7C4DFF", None, Some(true)),
      Category("inc-4", "Gifts", Income, None, "#FF4081", None, Some(true)),
      Category("inc-5", "Other", Income, None, "#90A4AE", None, Some(true)) ]
  }

  /** `DEFAULT_EXPENSE_CATEGORIES`. */
  function DefaultExpenseCategories(): (r: seq<Category>)
    ensures |r| == 8
    ensures forall i :: 0 <= i < |r| ==>
      r[i].kind == Expense && r[i].isDefault == Some(true) && r[i].userId == None
  {
    [ Category("exp-1", "Food & Groceries", Expense, None, "#EF5350", None, Some(true)),
      Category("exp-2", "Rent", Expense, None, "#FF7043", None, Some(true)),
      Category("exp-3", "Utilities", Expense, None, "#FFA726", None, Some(true)),
      Category("exp-4", "Transport", Expense, None, "#FFCA28", None, Some(true)),
      Category("exp-5", "Entertainment", Expense, None, "#66BB6A", None, Some(true)),
      Category("exp-6", "Health", Expense, None, "#26A69A", None, Some(true)),
      Category("exp-7", "Shopping", Expense, None, "#29B6F6", None, Some(true)),
      Category("exp-8", "Travel", Expense, None, "#AB47BC", None, Some(true)) ]
  }

  /** `[...DEFAULT_INCOME_CATEGORIES, ...DEFAULT_EXPENSE_CATEGORIES]`: thirteen
      defaults with pairwise distinct ids, income first. */
  function DefaultCategories(): (r: seq<Category>)
    ensures |r| == 13
    ensures Distinct(CategoryIds(r))
    ensures forall i :: 0 <= i < |r| ==>
      r[i].isDefault == Some(true) && r[i].userId == None && r[i].name != "" &&
      (r[i].kind == Income <==> i < 5)
  {
    DefaultIncomeCategories() + DefaultExpenseCategories()
  }

  /** `t` names a default category of its own type, and its denormalised
      `categoryName` is that category's name. */
  predicate NamesDefaultCategory(t: Transaction)
  {
    exists k :: 0 <= k < |DefaultCategories()| && DefaultCategories()[k].id == t.categoryId
      && DefaultCategories()[k].kind == t.kind && DefaultCategories()[k].name == t.categoryName
  }

  /** The default `t` names is the one `find` returns for its category id. */
  lemma NamesDefaultCategoryFind(t: Transaction)
    requires NamesDefaultCategory(t)
    ensures var c := FindCategory(DefaultCategories(), t.categoryId);
      c.Some? && c.value.kind == t.kind && c.value.name == t.categoryName
  {
    var k :| 0 <= k < |DefaultCategories()| && DefaultCategories()[k].id == t.categoryId
      && DefaultCategories()[k].kind == t.kind && DefaultCategories()[k].name == t.categoryName;
    FindCategoryDistinct(DefaultCategories(), k);
  }

  /** What the three demo transactions are, for a load in month `today` at
      time `now`. */
  predicate IsDemoSeed(txs: seq<Transaction>, today: YearMonth, now: string)
    requires ValidMonth(today)
  {
    && |txs| == 3
    && TxIds(txs) == ["tx-1", "tx-2", "tx-3"]
    && (forall i :: 0 <= i < |txs| ==>
         && !txs[i].deleted
         && txs[i].userId == MockUserId
         && txs[i].currency == "USD"
         && txs[i].amount >= 0.0
         && txs[i].createdAt == now && txs[i].updatedAt == now
         && StartsWith(txs[i].date, MonthKey(today))
         && NamesDefaultCategory(txs[i]))
    && txs[0].kind == Income && txs[0].amount == 5000.0 && txs[0].date == DayDate(today, 1)
    && txs[1].kind == Expense && txs[1].amount == 1500.0 && txs[1].date == DayDate(today, 2)
    && txs[2].kind == Expense && txs[2].amount == 120.5 && txs[2].date == DayDate(today, 5)
    && txs[0].notes == None && txs[1].notes == None && txs[2].notes == Some("Weekly haul")
  }

  /** `generateMockTransactions()`: three pushes onto a local list. */
  method GenerateMockTransactions(today: YearMonth, now: string) returns (txs: seq<Transaction>)
    requires ValidMonth(today)
    ensures IsDemoSeed(txs, today, now)
  {
    txs := [];
    // Salary
    txs := txs + [Transaction("tx-1", Income, 5000.0, "USD", "inc-1", "Salary",
                              DayDate(today, 1), None, MockUserId, now, now, false)];
    // Rent
    txs := txs + [Transaction("tx-2", Expense, 1500.0, "USD", "exp-2", "Rent",
                              DayDate(today, 2), None, MockUserId, now, now, false)];
    // Groceries
    txs := txs + [Transaction("tx-3", Expense, 120.5, "USD", "exp-1", "Food & Groceries",
                              DayDate(today, 5), Some("Weekly haul"), MockUserId, now, now, false)];
    // the defaults the three records name
    assert DefaultCategories()[0].id == "inc-1" && DefaultCategories()[0].name == "Salary";
    assert DefaultCategories()[6].id == "exp-2" && DefaultCategories()[6].name == "Rent";
    assert DefaultCategories()[5].id == "exp-1" && DefaultCategories()[5].name == "Food & Groceries";
  }
}
