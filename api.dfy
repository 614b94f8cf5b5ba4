/** The client-side service: a key-to-whole-collection store for the session
    token, the current user, the transactions and the categories. Every
    operation reads a collection, changes it and writes the whole snapshot
    back; each `async` operation is one atomic step here. The pure functions
    before the class are the specifications the class's methods are proved
    against. */
module Api {
  import opened Base
  import opened Text
  import opened Types
  import opened Calendar
  import opened Constants

  /** `getStored(key, defaultVal)`: the stored collection, or the default
      when the key is absent. A stored empty list is present. */
  function GetStored<T>(item: Option<T>, defaultVal: T): (r: T)
    ensures item.Some? ==> r == item.value
    ensures item.None? ==> r == defaultVal
  {
    match item
    case Some(v) => v
    case None => defaultVal
  }

  // ---------------------------------------------------------------------
  // getTransactions: filter chain, then a stable sort by date, newest first

  /** `filters?.month` is truthy: present and not the empty string. */
  predicate MonthFilterOn(month: Option<string>)
  {
    month.Some? && month.value != ""
  }

  /** `t` passes the `filters?.type` test. */
  predicate KindMatches(t: Transaction, kind: Option<TxType>)
  {
    kind.Some? ==> t.kind == kind.value
  }

  /** The records `getTransactions(filters)` keeps. */
  predicate Selected(t: Transaction, month: Option<string>, kind: Option<TxType>)
  {
    && !t.deleted
    && KindMatches(t, kind)
    && (MonthFilterOn(month) ==> StartsWith(t.date, month.value))
  }

  /** The three `filter` calls, in the source's order. */
  function FilterTransactions(txs: seq<Transaction>, month: Option<string>, kind: Option<TxType>): (r: seq<Transaction>)
    ensures r == Filter((t: Transaction) => Selected(t, month, kind), txs)
  {
    var active := Filter((t: Transaction) => !t.deleted, txs);
    var typed := if kind.Some? then Filter((t: Transaction) => t.kind == kind.value, active) else active;
    var dated := if MonthFilterOn(month) then Filter((t: Transaction) => StartsWith(t.date, month.value), typed) else typed;
    assert typed == Filter((t: Transaction) => !t.deleted && KindMatches(t, kind), txs) by {
      if kind.Some? {
        FilterFilter((t: Transaction) => !t.deleted, (t: Transaction) => t.kind == kind.value,
                     (t: Transaction) => !t.deleted && KindMatches(t, kind), txs);
      } else {
        FilterAgree((t: Transaction) => !t.deleted, (t: Transaction) => !t.deleted && KindMatches(t, kind), txs);
      }
    }
    assert dated == Filter((t: Transaction) => Selected(t, month, kind), txs) by {
      if MonthFilterOn(month) {
        FilterFilter((t: Transaction) => !t.deleted && KindMatches(t, kind),
                     (t: Transaction) => StartsWith(t.date, month.value), (t: Transaction) => Selected(t, month, kind), txs);
      } else {
        FilterAgree((t: Transaction) => !t.deleted && KindMatches(t, kind),
                    (t: Transaction) => Selected(t, month, kind), txs);
      }
    }
    dated
  }

  /** Non-increasing by date: a later entry never has a later date. */
  ghost predicate SortedByDateDesc(s: seq<Transaction>)
  {
    forall i, j :: 0 <= i < j < |s| ==> LexLe(s[j].date, s[i].date)
  }

  /** The entries of `s` dated `d`, in their order. */
  function WithDate(s: seq<Transaction>, d: string): seq<Transaction>
  {
    Filter((t: Transaction) => t.date == d, s)
  }

  /** Insert `x` before the first entry that is not strictly later than it. */
  function InsertByDate(x: Transaction, r: seq<Transaction>): seq<Transaction>
  {
    if r == [] || !LexLess(x.date, r[0].date) then [x] + r
    else [r[0]] + InsertByDate(x, r[1..])
  }

  /** `txs.sort((a, b) => date(b) - date(a))`: the stable sort, newest first. */
  function SortByDateDesc(s: seq<Transaction>): seq<Transaction>
  {
    if s == [] then [] else InsertByDate(s[0], SortByDateDesc(s[1..]))
  }

  lemma SortedHead(r: seq<Transaction>)
    requires SortedByDateDesc(r) && r != []
    ensures forall y :: y in r ==> LexLe(y.date, r[0].date)
  {
    forall y | y in r ensures LexLe(y.date, r[0].date) {
      var k :| 0 <= k < |r| && r[k] == y;
      if k == 0 {
      }
    }
  }

  lemma {:induction false} InsertMultiset(x: Transaction, r: seq<Transaction>)
    ensures multiset(InsertByDate(x, r)) == multiset(r) + multiset{x}
  {
    if r != [] && LexLess(x.date, r[0].date) {
      InsertMultiset(x, r[1..]);
      assert r == [r[0]] + r[1..];
    }
  }

  /** A sorted list stays sorted under a head no earlier than any entry. */
  lemma SortedCons(y: Transaction, rest: seq<Transaction>)
    requires SortedByDateDesc(rest)
    requires forall z :: z in rest ==> LexLe(z.date, y.date)
    ensures SortedByDateDesc([y] + rest)
  {
    var s := [y] + rest;
    forall i, j | 0 <= i < j < |s| ensures LexLe(s[j].date, s[i].date) {
      assert s[j] == rest[j - 1];
      if i > 0 {
        assert s[i] == rest[i - 1];
      }
    }
  }

  lemma {:induction false} InsertSorted(x: Transaction, r: seq<Transaction>)
    requires SortedByDateDesc(r)
    ensures SortedByDateDesc(InsertByDate(x, r))
  {
    if r == [] {
    } else if !LexLess(x.date, r[0].date) {
      LexLessTotal(x.date, r[0].date);
      SortedHead(r);
      forall z | z in r ensures LexLe(z.date, x.date) {
        LexLeTransitive(z.date, r[0].date, x.date);
      }
      SortedCons(x, r);
    } else {
      var rest := InsertByDate(x, r[1..]);
      InsertSorted(x, r[1..]);
      InsertMultiset(x, r[1..]);
      SortedHead(r);
      forall z | z in rest ensures LexLe(z.date, r[0].date) {
        assert z in multiset(rest);
        if z != x {
          assert z in r[1..];
        }
      }
      SortedCons(r[0], rest);
    }
  }

  lemma {:induction false} InsertWithDate(x: Transaction, r: seq<Transaction>, d: string)
    ensures WithDate(InsertByDate(x, r), d) == if x.date == d then [x] + WithDate(r, d) else WithDate(r, d)
  {
    if r == [] || !LexLess(x.date, r[0].date) {
      assert ([x] + r)[1..] == r;
    } else {
      InsertWithDate(x, r[1..], d);
      assert ([r[0]] + InsertByDate(x, r[1..]))[1..] == InsertByDate(x, r[1..]);
      if x.date == d {
        LexLessIrreflexive(d);
        assert r[0].date != d;
      }
    }
  }

  /** The sort yields a date-ordered permutation of its input. */
  lemma {:induction false} SortByDateDescCorrect(s: seq<Transaction>)
    ensures SortedByDateDesc(SortByDateDesc(s))
    ensures multiset(SortByDateDesc(s)) == multiset(s)
  {
    if s != [] {
      SortByDateDescCorrect(s[1..]);
      InsertSorted(s[0], SortByDateDesc(s[1..]));
      InsertMultiset(s[0], SortByDateDesc(s[1..]));
      assert s == [s[0]] + s[1..];
    }
  }

  /** The sort is stable: the entries of each date keep their input order. */
  lemma {:induction false} SortByDateDescStable(s: seq<Transaction>, d: string)
    ensures WithDate(SortByDateDesc(s), d) == WithDate(s, d)
  {
    if s != [] {
      SortByDateDescStable(s[1..], d);
      InsertWithDate(s[0], SortByDateDesc(s[1..]), d);
      FilterCons((t: Transaction) => t.date == d, s);
    }
  }

  /** `getTransactions(filters)` over the stored list `stored`: the records
      that are not deleted and match the type and month filters, each as
      often as it is stored, newest first, equal dates in stored order. */
  function ListTransactions(stored: seq<Transaction>, month: Option<string>, kind: Option<TxType>): (r: seq<Transaction>)
    ensures SortedByDateDesc(r)
    ensures forall t {:trigger multiset(r)[t]} :: multiset(r)[t] == if Selected(t, month, kind) then multiset(stored)[t] else 0
    ensures forall t :: t in r <==> t in stored && Selected(t, month, kind)
    ensures forall d :: WithDate(r, d) == WithDate(FilterTransactions(stored, month, kind), d)
  {
    var picked := FilterTransactions(stored, month, kind);
    var r := SortByDateDesc(picked);
    assert SortedByDateDesc(r) && multiset(r) == multiset(picked) by {
      SortByDateDescCorrect(picked);
    }
    assert forall d :: WithDate(r, d) == WithDate(picked, d) by {
      forall d ensures WithDate(r, d) == WithDate(picked, d) {
        SortByDateDescStable(picked, d);
      }
    }
    r
  }

  // ---------------------------------------------------------------------
  // findIndex, update and soft delete

  /** `txs.findIndex((t: Transaction) => t.id === id)`. */
  function FirstIndex(s: seq<Transaction>, id: string): (r: int)
    ensures -1 <= r < |s|
    ensures r == -1 <==> forall i :: 0 <= i < |s| ==> s[i].id != id
    ensures 0 <= r ==> s[r].id == id && forall i :: 0 <= i < r ==> s[i].id != id
  {
    if s == [] then -1
    else if s[0].id == id then 0
    else
      var k := FirstIndex(s[1..], id);
      assert forall i :: 1 <= i < |s| ==> s[i] == s[1..][i - 1];
      if k == -1 then -1 else k + 1
  }

  /** The linear search behind `findIndex`. */
  method FindIndex(s: seq<Transaction>, id: string) returns (idx: int)
    ensures idx == FirstIndex(s, id)
  {
    var i := 0;
    while i < |s|
      invariant 0 <= i <= |s|
      invariant forall j :: 0 <= j < i ==> s[j].id != id
    {
      if s[i].id == id {
        return i;
      }
      i := i + 1;
    }
    return -1;
  }

  /** `{ ...t, ...data, updatedAt: now }`. */
  function Merge(t: Transaction, data: TxPatch, now: string): Transaction
  {
    Transaction(
      data.id.GetOr(t.id),
      data.kind.GetOr(t.kind),
      data.amount.GetOr(t.amount),
      data.currency.GetOr(t.currency),
      data.categoryId.GetOr(t.categoryId),
      data.categoryName.GetOr(t.categoryName),
      data.date.GetOr(t.date),
      data.notes.GetOr(t.notes),
      data.userId.GetOr(t.userId),
      data.createdAt.GetOr(t.createdAt),
      now,
      data.deleted.GetOr(t.deleted))
  }

  /** The patch with no keys. */
  function EmptyPatch(): TxPatch
  {
    TxPatch(None, None, None, None, None, None, None, None, None, None, None, None)
  }

  /** An empty patch changes nothing but `updatedAt`. */
  lemma MergeEmptyPatch(t: Transaction, now: string)
    ensures Merge(t, EmptyPatch(), now) == t.(updatedAt := now)
  {
  }

  /** `updatedAt` always comes from the clock: a patch's own `updatedAt`
      never reaches the record. */
  lemma MergeIgnoresPatchUpdatedAt(t: Transaction, data: TxPatch, now: string, stamp: string)
    ensures Merge(t, data.(updatedAt := Some(stamp)), now) == Merge(t, data, now)
    ensures Merge(t, data, now).updatedAt == now
  {
  }

  /** The spread accepts any key: a patch can rename the record or clear
      its soft-delete flag. */
  lemma MergeCanRewriteIdAndUndelete(t: Transaction, newId: string, now: string)
    ensures Merge(t, EmptyPatch().(id := Some(newId), deleted := Some(false)), now).id == newId
    ensures !Merge(t, EmptyPatch().(id := Some(newId), deleted := Some(false)), now).deleted
  {
  }

  /** `txs[idx].deleted = true` on the first record with that id, if any. */
  function SoftDeleted(s: seq<Transaction>, id: string): seq<Transaction>
  {
    var k := FirstIndex(s, id);
    if k == -1 then s else s[k := s[k].(deleted := true)]
  }

  /** Soft delete only sets one flag: same length, same ids, every record
      but the first match untouched, and that one differs only in `deleted`. */
  lemma SoftDeletedChangesOnlyFlag(s: seq<Transaction>, id: string)
    ensures |SoftDeleted(s, id)| == |s|
    ensures TxIds(SoftDeleted(s, id)) == TxIds(s)
    ensures forall i :: 0 <= i < |s| && i != FirstIndex(s, id) ==> SoftDeleted(s, id)[i] == s[i]
    ensures 0 <= FirstIndex(s, id) ==>
      SoftDeleted(s, id)[FirstIndex(s, id)] == s[FirstIndex(s, id)].(deleted := true)
  {
  }

  /** Deleting twice is deleting once. */
  lemma SoftDeleteIdempotent(s: seq<Transaction>, id: string)
    ensures SoftDeleted(SoftDeleted(s, id), id) == SoftDeleted(s, id)
  {
    SoftDeletedChangesOnlyFlag(s, id);
    var r := SoftDeleted(s, id);
    assert forall i :: 0 <= i < |s| ==> r[i].id == TxIds(r)[i] == TxIds(s)[i] == s[i].id;
    assert FirstIndex(r, id) == FirstIndex(s, id);
  }

  /** A deleted record can still be found, so it can still be updated. */
  lemma SoftDeletedStillFound(s: seq<Transaction>, id: string)
    ensures FirstIndex(SoftDeleted(s, id), id) == FirstIndex(s, id)
  {
    SoftDeletedChangesOnlyFlag(s, id);
    var r := SoftDeleted(s, id);
    assert forall i :: 0 <= i < |s| ==> r[i].id == TxIds(r)[i] == TxIds(s)[i] == s[i].id;
  }

  /** With distinct ids, no listing shows a deleted id any more, while the
      record stays in storage as a tombstone. */
  lemma DeleteThenListExcludes(s: seq<Transaction>, id: string, month: Option<string>, kind: Option<TxType>)
    requires Distinct(TxIds(s))
    ensures forall t :: t in ListTransactions(SoftDeleted(s, id), month, kind) ==> t.id != id
    ensures 0 <= FirstIndex(s, id) ==> s[FirstIndex(s, id)].(deleted := true) in SoftDeleted(s, id)
  {
    SoftDeletedChangesOnlyFlag(s, id);
    var r := SoftDeleted(s, id);
    forall t | t in ListTransactions(r, month, kind) ensures t.id != id {
    }
  }

  /** Without distinct ids a delete hides only the first match: a second
      record with the same id stays listed. */
  lemma DeleteHidesOnlyFirstMatch(a: Transaction, b: Transaction)
    requires a.id == b.id && !a.deleted && !b.deleted
    ensures b in ListTransactions(SoftDeleted([a, b], a.id), None, None)
  {
    assert SoftDeleted([a, b], a.id) == [a.(deleted := true), b];
  }

  /** A new, non-deleted record with a fresh id is listed exactly once. */
  lemma CreateThenListOnce(s: seq<Transaction>, t: Transaction)
    requires t.id !in TxIds(s) && !t.deleted
    ensures multiset(ListTransactions(s + [t], None, None))[t] == 1
  {
    assert multiset(s + [t]) == multiset(s) + multiset{t};
  }

  /** The record `createTransaction(data)` builds at time `now` with id `id`. */
  predicate CreatedFrom(r: Transaction, data: TxPayload, now: string)
  {
    && r.kind == data.kind && r.amount == data.amount && r.currency == data.currency
    && r.categoryId == data.categoryId && r.categoryName == data.categoryName
    && r.date == data.date && r.notes == data.notes && r.userId == data.userId
    && r.createdAt == now && r.updatedAt == now && !r.deleted
  }

  // ---------------------------------------------------------------------
  // categories

  /** `cats.filter((c: Category) => c.id !== id)`. */
  function WithoutCategory(cats: seq<Category>, id: string): (r: seq<Category>)
    ensures forall c :: c in r <==> c in cats && c.id != id
    ensures forall c {:trigger multiset(r)[c]} :: multiset(r)[c] == if c.id != id then multiset(cats)[c] else 0
    ensures IsSubsequence(r, cats)
  {
    FilterIsSubsequence((c: Category) => c.id != id, cats);
    Filter((c: Category) => c.id != id, cats)
  }

  /** Creating a category with a fresh id and deleting it by that id gives
      the original list back. */
  lemma CreateThenDeleteCategory(cats: seq<Category>, c: Category)
    requires c.id !in CategoryIds(cats)
    ensures WithoutCategory(cats + [c], c.id) == cats
  {
    FilterAppend((x: Category) => x.id != c.id, cats, [c]);
    forall i | 0 <= i < |cats| ensures cats[i].id != c.id {
      assert CategoryIds(cats)[i] == cats[i].id;
    }
    FilterKeepsAll((x: Category) => x.id != c.id, cats);
  }

  /** The service has no `isDefault` guard: deleting a default id removes
      that default. */
  lemma DeleteCategoryRemovesDefault()
    ensures |WithoutCategory(DefaultCategories(), "inc-1")| == 12
    ensures forall c :: c in WithoutCategory(DefaultCategories(), "inc-1") ==> c.id != "inc-1"
  {
    var d := DefaultCategories();
    assert d == [d[0]] + d[1..];
    assert d[0].id == "inc-1";
    assert forall i :: 1 <= i < 13 ==> d[i].id != "inc-1" by {
      assert forall i :: 1 <= i < 13 ==> CategoryIds(d)[i] != CategoryIds(d)[0];
    }
    FilterKeepsAll((c: Category) => c.id != "inc-1", d[1..]);
  }

  datatype AuthResponse = AuthResponse(user: User, token: string)

  /** The service over four optional storage slots (`None` is a key that
      `localStorage` does not hold). */
  class ApiService {
    var token: Option<string>
    var user: Option<User>
    var transactions: Option<seq<Transaction>>
    var categories: Option<seq<Category>>
    /** `MOCK_TRANSACTIONS`, computed once when the module is loaded. */
    const mockTransactions: seq<Transaction>

    /** The service over whatever storage holds when the page loads, in
        month `today` at time `loadNow`. */
    constructor (today: YearMonth, loadNow: string,
                 token0: Option<string>, user0: Option<User>,
                 transactions0: Option<seq<Transaction>>, categories0: Option<seq<Category>>)
      requires ValidMonth(today)
      ensures token == token0 && user == user0
      ensures transactions == transactions0 && categories == categories0
      ensures IsDemoSeed(mockTransactions, today, loadNow)
    {
      var seed := GenerateMockTransactions(today, loadNow);
      mockTransactions := seed;
      token, user := token0, user0;
      transactions, categories := transactions0, categories0;
    }

    function StoredTransactions(): seq<Transaction>
      reads this
    {
      GetStored(transactions, [])
    }

    // --- Auth ---

    /** `login(email)` at time `now`, `Date.now()` being `millis`. */
    method Login(email: string, now: string, millis: nat) returns (r: AuthResponse)
      modifies this
      ensures user == Some(User(MockUserId, "Demo User", email, None, now))
      ensures token == Some("jwt-mock-token-" + NatToString(millis))
      ensures r == AuthResponse(user.value, token.value)
      ensures old(transactions).None? ==>
        transactions == Some(mockTransactions) && categories == Some(DefaultCategories())
      ensures old(transactions).Some? ==>
        transactions == old(transactions) && categories == old(categories)
      ensures IsAuthenticated()
    {
      var u := User(MockUserId, "Demo User", email, None, now);
      var t := "jwt-mock-token-" + NatToString(millis);
      user := Some(u);
      token := Some(t);
      if transactions.None? {
        transactions := Some(mockTransactions);
        categories := Some(DefaultCategories());
      }
      r := AuthResponse(u, t);
    }

    /** `logout()`. */
    method Logout()
      modifies this
      ensures token == None && user == None
      ensures transactions == old(transactions) && categories == old(categories)
      ensures !IsAuthenticated() && GetCurrentUser() == None
    {
      token := None;
      user := None;
    }

    /** `getCurrentUser()`. */
    function GetCurrentUser(): Option<User>
      reads this
    {
      user
    }

    /** `isAuthenticated()`: `!!localStorage.getItem(TOKEN)`. The stored text
        is the JSON of a string, never empty, so presence decides. */
    function IsAuthenticated(): (r: bool)
      reads this
      ensures r <==> token.Some?
    {
      token.Some?
    }

    // --- Transactions ---

    /** `getTransactions(filters)`. */
    function GetTransactions(month: Option<string>, kind: Option<TxType>): (r: seq<Transaction>)
      reads this
      ensures r == ListTransactions(StoredTransactions(), month, kind)
    {
      ListTransactions(GetStored(transactions, []), month, kind)
    }

    /** `createTransaction(data)` at time `now`. */
    method CreateTransaction(data: TxPayload, now: string) returns (r: Transaction)
      modifies this
      ensures CreatedFrom(r, data, now)
      ensures r.id !in TxIds(old(StoredTransactions()))
      ensures transactions == Some(old(StoredTransactions()) + [r])
      ensures token == old(token) && user == old(user) && categories == old(categories)
    {
      var txs := GetStored(transactions, []);
      var id := FreshId(TxIds(txs));
      r := Transaction(id, data.kind, data.amount, data.currency, data.categoryId, data.categoryName,
                       data.date, data.notes, data.userId, now, now, false);
      txs := txs + [r];
      transactions := Some(txs);
    }

    /** `updateTransaction(id, data)` at time `now`. */
    method UpdateTransaction(id: string, data: TxPatch, now: string) returns (r: Result<Transaction>)
      modifies this
      ensures var s := old(StoredTransactions()); var k := FirstIndex(s, id);
        && (k == -1 ==> r == Err("Transaction not found") && transactions == old(transactions))
        && (0 <= k ==> r == Ok(Merge(s[k], data, now)) && transactions == Some(s[k := r.value]))
      ensures token == old(token) && user == old(user) && categories == old(categories)
    {
      var txs := GetStored(transactions, []);
      var idx := FindIndex(txs, id);
      if idx == -1 {
        return Err("Transaction not found");
      }
      var updated := Merge(txs[idx], data, now);
      txs := txs[idx := updated];
      transactions := Some(txs);
      r := Ok(updated);
    }

    /** `deleteTransaction(id)`: a soft delete; no write when the id is missing. */
    method DeleteTransaction(id: string)
      modifies this
      ensures FirstIndex(old(StoredTransactions()), id) == -1 ==> transactions == old(transactions)
      ensures 0 <= FirstIndex(old(StoredTransactions()), id) ==>
        transactions == Some(SoftDeleted(old(StoredTransactions()), id))
      ensures token == old(token) && user == old(user) && categories == old(categories)
    {
      var txs := GetStored(transactions, []);
      var idx := FindIndex(txs, id);
      if idx != -1 {
        txs := txs[idx := txs[idx].(deleted := true)];
        transactions := Some(txs);
      }
    }

    // --- Categories ---

    /** `getCategories()`: the stored list, or the defaults (not persisted). */
    function GetCategories(): (r: seq<Category>)
      reads this
      ensures categories.Some? ==> r == categories.value
      ensures categories.None? ==> r == DefaultCategories()
    {
      GetStored(categories, DefaultCategories())
    }

    /** `createCategory(data)`. */
    method CreateCategory(data: CategoryData) returns (r: Category)
      modifies this
      ensures r == Category(r.id, data.name, data.kind, data.icon, data.color, data.userId, data.isDefault)
      ensures r.id !in CategoryIds(old(GetCategories()))
      ensures categories == Some(old(GetCategories()) + [r])
      ensures token == old(token) && user == old(user) && transactions == old(transactions)
    {
      var cats := GetCategories();
      var id := FreshId(CategoryIds(cats));
      r := Category(id, data.name, data.kind, data.icon, data.color, data.userId, data.isDefault);
      cats := cats + [r];
      categories := Some(cats);
    }

    /** `deleteCategory(id)`: always writes, with no default check. */
    method DeleteCategory(id: string)
      modifies this
      ensures categories == Some(WithoutCategory(old(GetCategories()), id))
      ensures token == old(token) && user == old(user) && transactions == old(transactions)
    {
      var cats := GetCategories();
      cats := WithoutCategory(cats, id);
      categories := Some(cats);
    }
  }
}
