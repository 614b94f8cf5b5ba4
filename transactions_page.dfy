/** The logic of the transactions screen: the search filter over the loaded
    list, the payload built from the form, the choice between update and
    create, the optimistic removal after a delete, and the category options
    offered for the selected type. */
module TransactionsPage {
  import opened Base
  import opened Text
  import opened Types
  import opened Constants
  import opened Api

  // ---------------------------------------------------------------------
  // search

  /** The search test for an already lowercased term; `amountText` stands
      for `amount.toString()`, which is not lowercased. Empty notes are
      falsy and take no part. */
  predicate SearchMatches(t: Transaction, lower: string, amountText: real -> string)
  {
    || Contains(ToLower(t.categoryName), lower)
    || (t.notes.Some? && t.notes.value != "" && Contains(ToLower(t.notes.value), lower))
    || Contains(amountText(t.amount), lower)
  }

  /** The search effect: the whole list for an empty term, else the entries
      that match the lowercased term, in their order. */
  function SearchTransactions(txs: seq<Transaction>, term: string, amountText: real -> string): (r: seq<Transaction>)
    ensures term == "" ==> r == txs
    ensures IsSubsequence(r, txs)
    ensures term != "" ==> forall t :: t in r <==> t in txs && SearchMatches(t, ToLower(term), amountText)
    ensures term != "" ==> forall t {:trigger multiset(r)[t]} :: multiset(r)[t] == if SearchMatches(t, ToLower(term), amountText) then multiset(txs)[t] else 0
  {
    if term == "" then
      assert IsSubsequence(txs, txs) by { SubsequenceReflexive(txs); }
      txs
    else
      var lower := ToLower(term);
      FilterIsSubsequence((t: Transaction) => SearchMatches(t, lower, amountText), txs);
      Filter((t: Transaction) => SearchMatches(t, lower, amountText), txs)
  }

  lemma {:induction false} SubsequenceReflexive(s: seq<Transaction>)
    ensures IsSubsequence(s, s)
  {
    if s != [] {
      SubsequenceReflexive(s[1..]);
    }
  }

  /** The search ignores the case of the term. */
  lemma SearchIgnoresTermCase(txs: seq<Transaction>, term: string, amountText: real -> string)
    ensures SearchTransactions(txs, ToLower(term), amountText) == SearchTransactions(txs, term, amountText)
  {
    ToLowerIdempotent(term);
    if term != "" {
      assert ToLower(term) != "" by { assert |ToLower(term)| == |term|; }
    }
  }

  /** Searching the result again with the same term changes nothing. */
  lemma SearchIdempotent(txs: seq<Transaction>, term: string, amountText: real -> string)
    ensures SearchTransactions(SearchTransactions(txs, term, amountText), term, amountText) ==
            SearchTransactions(txs, term, amountText)
  {
    if term != "" {
      var r := SearchTransactions(txs, term, amountText);
      assert forall i :: 0 <= i < |r| ==> SearchMatches(r[i], ToLower(term), amountText) by {
        forall i | 0 <= i < |r| ensures SearchMatches(r[i], ToLower(term), amountText) {
          assert r[i] in r;
        }
      }
      FilterKeepsAll((t: Transaction) => SearchMatches(t, ToLower(term), amountText), r);
    }
  }

  /** `sub` occurs somewhere in `s`. */
  ghost predicate OccursIn(s: string, sub: string)
  {
    exists i :: OccursAt(s, sub, i)
  }

  /** The match test is substring occurrence in one of the three texts. */
  lemma SearchMatchesIff(t: Transaction, lower: string, amountText: real -> string)
    ensures SearchMatches(t, lower, amountText) <==>
      || OccursIn(ToLower(t.categoryName), lower)
      || (t.notes.Some? && t.notes.value != "" && OccursIn(ToLower(t.notes.value), lower))
      || OccursIn(amountText(t.amount), lower)
  {
    ContainsIff(ToLower(t.categoryName), lower);
    ContainsIff(amountText(t.amount), lower);
    if t.notes.Some? {
      ContainsIff(ToLower(t.notes.value), lower);
    }
  }

  /** A kept entry contains the lowercased term at some position of one of
      the three texts, and every such entry is kept. */
  lemma SearchKeepsExactlyOccurrences(txs: seq<Transaction>, term: string, amountText: real -> string, t: Transaction)
    requires term != "" && t in txs
    ensures t in SearchTransactions(txs, term, amountText) <==>
      || OccursIn(ToLower(t.categoryName), ToLower(term))
      || (t.notes.Some? && t.notes.value != "" && OccursIn(ToLower(t.notes.value), ToLower(term)))
      || OccursIn(amountText(t.amount), ToLower(term))
  {
    SearchMatchesIff(t, ToLower(term), amountText);
  }

  // ---------------------------------------------------------------------
  // the form and its payload

  /** The modal's form state; `amount` is the text typed in. */
  datatype FormData = FormData(amount: string, kind: TxType, categoryId: string, date: string, notes: string)

  /** `category?.name || 'Unknown'`. */
  function CategoryNameOr(cats: seq<Category>, id: string): (name: string)
    ensures FindCategory(cats, id).Some? && FindCategory(cats, id).value.name != "" ==>
      name == FindCategory(cats, id).value.name
    ensures (FindCategory(cats, id).None? || FindCategory(cats, id).value.name == "") ==> name == "Unknown"
    ensures name != ""
  {
    match FindCategory(cats, id)
    case Some(c) => if c.name != "" then c.name else "Unknown"
    case None => "Unknown"
  }

  /** The payload `handleSubmit` builds; `parseAmount` stands for
      `parseFloat` and `currentUser` for `api.getCurrentUser()`. */
  function BuildPayload(form: FormData, cats: seq<Category>, currentUser: Option<User>, parseAmount: string -> real): (p: TxPayload)
    ensures p.amount == parseAmount(form.amount)
    ensures p.kind == form.kind && p.categoryId == form.categoryId && p.date == form.date
    ensures p.categoryName == CategoryNameOr(cats, form.categoryId)
    ensures p.currency == "USD"
    ensures p.notes == Some(form.notes)
    ensures currentUser.Some? && currentUser.value.id != "" ==> p.userId == currentUser.value.id
    ensures (currentUser.None? || currentUser.value.id == "") ==> p.userId == ""
  {
    TxPayload(
      form.kind,
      parseAmount(form.amount),
      "USD",
      form.categoryId,
      CategoryNameOr(cats, form.categoryId),
      form.date,
      Some(form.notes),
      match currentUser case Some(u) => u.id case None => "")
  }

  /** Choosing a default category of the form's type yields a record whose
      denormalised name is that default's name. */
  lemma PayloadNamesDefault(form: FormData, currentUser: Option<User>, parseAmount: string -> real, r: Transaction, now: string, k: nat)
    requires k < 13 && DefaultCategories()[k].id == form.categoryId && DefaultCategories()[k].kind == form.kind
    requires CreatedFrom(r, BuildPayload(form, DefaultCategories(), currentUser, parseAmount), now)
    ensures NamesDefaultCategory(r)
  {
    FindCategoryDistinct(DefaultCategories(), k);
  }

  /** The update `handleSubmit` sends when editing: every payload key present. */
  function PayloadPatch(p: TxPayload): (patch: TxPatch)
    ensures patch.id.None? && patch.createdAt.None? && patch.updatedAt.None? && patch.deleted.None?
  {
    TxPatch(None, Some(p.kind), Some(p.amount), Some(p.currency), Some(p.categoryId), Some(p.categoryName),
            Some(p.date), Some(p.notes), Some(p.userId), None, None, None)
  }

  /** Saving an edit takes every payload field and keeps the record's id,
      creation time and delete flag. */
  lemma EditKeepsIdentity(t: Transaction, p: TxPayload, now: string)
    ensures var m := Merge(t, PayloadPatch(p), now);
      && m.id == t.id && m.createdAt == t.createdAt && m.deleted == t.deleted && m.updatedAt == now
      && m.kind == p.kind && m.amount == p.amount && m.currency == p.currency
      && m.categoryId == p.categoryId && m.categoryName == p.categoryName
      && m.date == p.date && m.notes == p.notes && m.userId == p.userId
  {
  }

  /** What `handleSubmit` asks the service to do. */
  datatype SubmitAction = UpdateCall(id: string, patch: TxPatch) | CreateCall(payload: TxPayload)

  /** `editingTx ? update(editingTx.id, payload) : create(payload)`. */
  function SubmitActionFor(editing: Option<Transaction>, p: TxPayload): (a: SubmitAction)
    ensures editing.Some? <==> a.UpdateCall?
    ensures editing.Some? ==> a == UpdateCall(editing.value.id, PayloadPatch(p))
    ensures editing.None? ==> a == CreateCall(p)
  {
    match editing
    case Some(tx) => UpdateCall(tx.id, PayloadPatch(p))
    case None => CreateCall(p)
  }

  /** `handleSubmit`: build the payload and dispatch it. The result is
      false when the update throws (the screen shows an alert). */
  method HandleSubmit(api: ApiService, editing: Option<Transaction>, form: FormData,
                      parseAmount: string -> real, now: string) returns (saved: bool)
    modifies api
    ensures var p := BuildPayload(form, old(api.GetCategories()), old(api.GetCurrentUser()), parseAmount);
      match SubmitActionFor(editing, p)
      case CreateCall(_) =>
        saved && |api.StoredTransactions()| == |old(api.StoredTransactions())| + 1
        && api.StoredTransactions()[..|old(api.StoredTransactions())|] == old(api.StoredTransactions())
        && CreatedFrom(api.StoredTransactions()[|old(api.StoredTransactions())|], p, now)
      case UpdateCall(id, patch) =>
        var s := old(api.StoredTransactions());
        var k := FirstIndex(s, id);
        && (k == -1 ==> !saved && api.transactions == old(api.transactions))
        && (0 <= k ==> saved && api.transactions == Some(s[k := Merge(s[k], patch, now)]))
    ensures api.token == old(api.token) && api.user == old(api.user) && api.categories == old(api.categories)
  {
    var p := BuildPayload(form, api.GetCategories(), api.GetCurrentUser(), parseAmount);
    match SubmitActionFor(editing, p)
    case UpdateCall(id, patch) =>
      var res := api.UpdateTransaction(id, patch, now);
      saved := res.Ok?;
    case CreateCall(payload) =>
      var created := api.CreateTransaction(payload, now);
      assert api.StoredTransactions() == old(api.StoredTransactions()) + [created];
      saved := true;
  }

  // ---------------------------------------------------------------------
  // optimistic delete and category options

  /** `prev.filter(t => t.id !== id)`, applied to both lists on screen. */
  function OptimisticDelete(list: seq<Transaction>, id: string): (r: seq<Transaction>)
    ensures forall t :: t in r <==> t in list && t.id != id
    ensures forall t {:trigger multiset(r)[t]} :: multiset(r)[t] == if t.id != id then multiset(list)[t] else 0
    ensures IsSubsequence(r, list)
  {
    FilterIsSubsequence((t: Transaction) => t.id != id, list);
    Filter((t: Transaction) => t.id != id, list)
  }

  /** Removing from the search result is searching the removed list: the
      two screen lists stay consistent. */
  lemma OptimisticDeleteCommutesWithSearch(txs: seq<Transaction>, term: string, amountText: real -> string, id: string)
    ensures OptimisticDelete(SearchTransactions(txs, term, amountText), id) ==
            SearchTransactions(OptimisticDelete(txs, id), term, amountText)
  {
    if term != "" {
      var lower := ToLower(term);
      var keep := (t: Transaction) => t.id != id;
      var hit := (t: Transaction) => SearchMatches(t, lower, amountText);
      FilterFilter(hit, keep, (t: Transaction) => hit(t) && keep(t), txs);
      FilterFilter(keep, hit, (t: Transaction) => hit(t) && keep(t), txs);
    }
  }

  lemma SoftDeletedCount(s: seq<Transaction>, id: string, t: Transaction)
    requires Distinct(TxIds(s)) && !t.deleted
    ensures multiset(SoftDeleted(s, id))[t] == if t.id == id then 0 else multiset(s)[t]
  {
    var k := FirstIndex(s, id);
    if k != -1 {
      var x := s[k].(deleted := true);
      assert multiset(s[k := x]) == multiset(s) - multiset{s[k]} + multiset{x};
      if t.id == id {
        if t in s {
          var i :| 0 <= i < |s| && s[i] == t;
          assert TxIds(s)[i] == TxIds(s)[k];
        }
      }
    }
  }

  /** With distinct ids, the optimistic view holds exactly the records a
      reload after the delete would show, each as often. */
  lemma OptimisticDeleteMatchesReload(s: seq<Transaction>, id: string)
    requires Distinct(TxIds(s))
    ensures multiset(OptimisticDelete(ListTransactions(s, None, None), id)) ==
            multiset(ListTransactions(SoftDeleted(s, id), None, None))
  {
    forall t ensures multiset(OptimisticDelete(ListTransactions(s, None, None), id))[t] ==
                     multiset(ListTransactions(SoftDeleted(s, id), None, None))[t] {
      if !t.deleted {
        SoftDeletedCount(s, id, t);
      }
    }
  }

  /** `categories.filter(c => c.type === formData.type)`. */
  function FilteredCategories(cats: seq<Category>, kind: TxType): (r: seq<Category>)
    ensures forall c :: c in r <==> c in cats && c.kind == kind
    ensures forall c {:trigger multiset(r)[c]} :: multiset(r)[c] == if c.kind == kind then multiset(cats)[c] else 0
    ensures IsSubsequence(r, cats)
  {
    FilterIsSubsequence((c: Category) => c.kind == kind, cats);
    Filter((c: Category) => c.kind == kind, cats)
  }

  /** Filtering by kind a list made of a run of that kind followed by a
      run of other kinds keeps exactly the first run. */
  lemma FilterKindRun(a: seq<Category>, b: seq<Category>, kind: TxType)
    requires forall i :: 0 <= i < |a| ==> a[i].kind == kind
    requires forall i :: 0 <= i < |b| ==> b[i].kind != kind
    ensures FilteredCategories(a + b, kind) == a
  {
    var p := (c: Category) => c.kind == kind;
    FilterAppend(p, a, b);
    FilterKeepsAll(p, a);
    FilterDropsAll(p, b);
    assert a + [] == a;
  }

  /** Filtering by kind a run of other kinds followed by a run of that kind
      keeps exactly the second run. */
  lemma FilterKindRunAfter(a: seq<Category>, b: seq<Category>, kind: TxType)
    requires forall i :: 0 <= i < |a| ==> a[i].kind != kind
    requires forall i :: 0 <= i < |b| ==> b[i].kind == kind
    ensures FilteredCategories(a + b, kind) == b
  {
    var p := (c: Category) => c.kind == kind;
    FilterAppend(p, a, b);
    FilterDropsAll(p, a);
    FilterKeepsAll(p, b);
    assert [] + b == b;
  }

  /** Over the defaults, the options are the five income or the eight
      expense defaults, in their order. */
  lemma FilteredDefaults()
    ensures FilteredCategories(DefaultCategories(), TxType.Income) == DefaultIncomeCategories()
    ensures FilteredCategories(DefaultCategories(), TxType.Expense) == DefaultExpenseCategories()
  {
    var inc, exp := DefaultIncomeCategories(), DefaultExpenseCategories();
    assert DefaultCategories() == inc + exp;
    FilterKindRun(inc, exp, TxType.Income);
    FilterKindRunAfter(inc, exp, TxType.Expense);
  }
}
