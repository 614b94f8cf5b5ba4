/** The records of the finance tracker (`User`, `Category`, `Transaction`)
    and the payload shapes the service accepts, with the sum of amounts
    that every aggregation is built on. Amounts are exact reals. */
module Types {
  import opened Base

  /** `'income' | 'expense'`. */
  datatype TxType = Income | Expense

  datatype User = User(id: string, name: string, email: string, phone: Option<string>, createdAt: string)

  /** A category; defaults carry `isDefault = true` and no `userId`. */
  datatype Category = Category(
    id: string,
    name: string,
    kind: TxType,
    icon: Option<string>,
    color: string,
    userId: Option<string>,
    isDefault: Option<bool>)

  /** A transaction; `categoryName` is a copy of the category's name taken at
      write time, and `deleted` is the soft-delete flag. */
  datatype Transaction = Transaction(
    id: string,
    kind: TxType,
    amount: real,
    currency: string,
    categoryId: string,
    categoryName: string,
    date: string,
    notes: Option<string>,
    userId: string,
    createdAt: string,
    updatedAt: string,
    deleted: bool)

  /** `Omit<Transaction, 'id' | 'createdAt' | 'updatedAt' | 'deleted'>`. */
  datatype TxPayload = TxPayload(
    kind: TxType,
    amount: real,
    currency: string,
    categoryId: string,
    categoryName: string,
    date: string,
    notes: Option<string>,
    userId: string)

  /** `Partial<Transaction>`: `None` is a key the object does not have. For
      `notes`, `Some(None)` is a key that is present with value `undefined`. */
  datatype TxPatch = TxPatch(
    id: Option<string>,
    kind: Option<TxType>,
    amount: Option<real>,
    currency: Option<string>,
    categoryId: Option<string>,
    categoryName: Option<string>,
    date: Option<string>,
    notes: Option<Option<string>>,
    userId: Option<string>,
    createdAt: Option<string>,
    updatedAt: Option<string>,
    deleted: Option<bool>)

  /** `Omit<Category, 'id'>`. */
  datatype CategoryData = CategoryData(
    name: string,
    kind: TxType,
    icon: Option<string>,
    color: string,
    userId: Option<string>,
    isDefault: Option<bool>)

  /** `s.reduce((acc, t) => acc + t.amount, 0)`. */
  function Total(s: seq<Transaction>): real
  {
    if s == [] then 0.0 else s[0].amount + Total(s[1..])
  }

  lemma {:induction false} TotalAppend(a: seq<Transaction>, b: seq<Transaction>)
    ensures Total(a + b) == Total(a) + Total(b)
  {
    if a == [] {
      assert a + b == b;
    } else {
      assert (a + b)[0] == a[0];
      assert (a + b)[1..] == a[1..] + b;
      TotalAppend(a[1..], b);
    }
  }

  /** A sum of non-negative amounts is non-negative. */
  lemma {:induction false} TotalNonnegative(s: seq<Transaction>)
    requires forall i :: 0 <= i < |s| ==> s[i].amount >= 0.0
    ensures Total(s) >= 0.0
  {
    if s != [] {
      TotalNonnegative(s[1..]);
    }
  }

  /** Taking out the element at `k` takes its amount out of the sum. */
  lemma TotalRemove(b: seq<Transaction>, k: int)
    requires 0 <= k < |b|
    ensures Total(b) == b[k].amount + Total(b[..k] + b[k + 1..])
  {
    assert b == b[..k] + ([b[k]] + b[k + 1..]);
    TotalAppend(b[..k], [b[k]] + b[k + 1..]);
    TotalAppend(b[..k], b[k + 1..]);
    assert ([b[k]] + b[k + 1..])[1..] == b[k + 1..];
  }

  lemma MultisetRemove(b: seq<Transaction>, k: int)
    requires 0 <= k < |b|
    ensures multiset(b[..k] + b[k + 1..]) == multiset(b) - multiset{b[k]}
  {
    assert b == b[..k] + [b[k]] + b[k + 1..];
  }

  /** The sum does not depend on the order of the transactions. */
  lemma {:induction false} TotalPermutation(a: seq<Transaction>, b: seq<Transaction>)
    requires multiset(a) == multiset(b)
    ensures Total(a) == Total(b)
  {
    if a == [] {
      assert |b| == |multiset(b)| == 0;
    } else {
      var x := a[0];
      assert x in multiset(b);
      var k :| 0 <= k < |b| && b[k] == x;
      var rest := b[..k] + b[k + 1..];
      TotalRemove(b, k);
      MultisetRemove(b, k);
      assert a == [x] + a[1..];
      assert multiset(a[1..]) == multiset(a) - multiset{x} == multiset(rest);
      TotalPermutation(a[1..], rest);
      assert Total(a) == x.amount + Total(a[1..]);
    }
  }

  /** Splitting a list by a test and its negation splits its sum. */
  lemma {:induction false} TotalSplit(p: Transaction -> bool, q: Transaction -> bool, s: seq<Transaction>)
    requires forall t :: q(t) == !p(t)
    ensures Total(Filter(p, s)) + Total(Filter(q, s)) == Total(s)
  {
    if s != [] {
      TotalSplit(p, q, s[1..]);
      FilterCons(p, s);
      FilterCons(q, s);
    }
  }

  /** The ids of a transaction list. */
  function TxIds(s: seq<Transaction>): seq<string>
  {
    KeysOf(s, (t: Transaction) => t.id)
  }

  /** The ids of a category list. */
  function CategoryIds(s: seq<Category>): seq<string>
  {
    KeysOf(s, (c: Category) => c.id)
  }

  /** No two entries of `ids` are equal. */
  predicate Distinct(ids: seq<string>)
  {
    forall i, j :: 0 <= i < j < |ids| ==> ids[i] != ids[j]
  }

  function MaxLength(used: seq<string>): (n: nat)
    ensures forall i :: 0 <= i < |used| ==> |used[i]| <= n
  {
    if used == [] then 0
    else
      var m := MaxLength(used[1..]);
      if |used[0]| > m then |used[0]| else m
  }

  /** The fresh-id oracle standing for `crypto.randomUUID()` / `uuidv4()`:
      an id that none of `used` has. */
  function FreshId(used: seq<string>): (r: string)
    ensures r !in used
  {
    seq(MaxLength(used) + 1, _ => '0')
  }

  /** `cats.find(c => c.id === id)`: the first category with that id. This
      is `FindFirst` written out for categories: the instance through a
      lambda, unrolled over the literal defaults, makes the proofs about the
      seed data run out of resource. */
  function FindCategory(cats: seq<Category>, id: string): (r: Option<Category>)
    ensures r.None? <==> forall i :: 0 <= i < |cats| ==> cats[i].id != id
    ensures r.Some? ==> (r.value.id == id &&
      exists i :: 0 <= i < |cats| && cats[i] == r.value && forall j :: 0 <= j < i ==> cats[j].id != id)
  {
    if cats == [] then None
    else if cats[0].id == id then Some(cats[0])
    else
      var r := FindCategory(cats[1..], id);
      assert forall j :: 1 <= j < |cats| ==> cats[j] == cats[1..][j - 1];
      r
  }

  /** With pairwise distinct ids, looking up the id of entry `k` finds
      entry `k`. */
  lemma FindCategoryDistinct(cats: seq<Category>, k: nat)
    requires k < |cats| && Distinct(CategoryIds(cats))
    ensures FindCategory(cats, cats[k].id) == Some(cats[k])
  {
    var r := FindCategory(cats, cats[k].id);
    var i :| 0 <= i < |cats| && cats[i] == r.value && forall j :: 0 <= j < i ==> cats[j].id != cats[k].id;
    if i != k {
      assert CategoryIds(cats)[i] == CategoryIds(cats)[k];
    }
  }
}
