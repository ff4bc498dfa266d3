/**
 * The rows of the shop's three tables (products, transactions and
 * transaction_items) and the rules the schema puts on them: primary keys
 * handed out by an auto-increment counter, the two foreign keys of
 * transaction_items with their ON DELETE CASCADE, and the column ranges
 * of transaction_items. Money is in whole cents.
 */
module Tables {
  import opened Wrappers

  datatype Product = Product(id: nat, name: string, price: int, description: string, image: Option<string>)

  /** The fillable fields of a transaction, with its primary key. */
  datatype Transaction = Transaction(id: nat, userId: nat, totalAmount: int, status: string, cancelled: bool)

  datatype TransactionItem = TransactionItem(id: nat, transactionId: nat, productId: nat, quantity: int, price: int)

  const StatusOnProgress: string := "on progress"
  const StatusCompleted: string := "completed"
  const StatusCancelled: string := "cancelled"

  /** Column defaults of a new transaction row. */
  const InitialStatus: string := StatusOnProgress
  const InitialCancelled: bool := false

  /** The three statuses a transaction may be given. */
  predicate IsStatus(s: string)
  {
    s == StatusOnProgress || s == StatusCompleted || s == StatusCancelled
  }

  /** A signed 32-bit `integer` column. */
  predicate FitsInteger(n: int)
  {
    -0x8000_0000 <= n < 0x8000_0000
  }

  /** A decimal(10,2) column holding an amount in cents: at most ten digits. */
  predicate FitsDecimal10_2(cents: int)
  {
    -10_000_000_000 < cents < 10_000_000_000
  }

  /** The values the quantity and price columns of transaction_items can hold. */
  predicate ItemFits(quantity: int, price: int)
  {
    FitsInteger(quantity) && FitsDecimal10_2(price)
  }

  function ProductKey(p: Product): int { p.id }
  function TransactionKey(t: Transaction): int { t.id }
  function ItemKey(it: TransactionItem): int { it.id }

  /** `s` is in strictly ascending order of `key`: the order of an auto-increment primary key. */
  predicate Ascending<T>(s: seq<T>, key: T -> int)
  {
    forall i, j :: 0 <= i < j < |s| ==> key(s[i]) < key(s[j])
  }

  /** The rows of `s` that satisfy `keep`, in their stored order (a `where` clause). */
  function Filter<T(!new)>(s: seq<T>, keep: T -> bool): (r: seq<T>)
    ensures |r| <= |s|
    ensures forall x :: x in r <==> x in s && keep(x)
  {
    if s == [] then []
    else
      assert s == [s[0]] + s[1..];
      (if keep(s[0]) then [s[0]] else []) + Filter(s[1..], keep)
  }

  lemma {:induction false} FilterAscending<T(!new)>(s: seq<T>, keep: T -> bool, key: T -> int)
    requires Ascending(s, key)
    ensures Ascending(Filter(s, keep), key)
  {
    if s != [] {
      FilterAscending(s[1..], keep, key);
      var rest := Filter(s[1..], keep);
      forall x | x in rest
        ensures key(s[0]) < key(x)
      {
        var j :| 0 <= j < |s[1..]| && s[1..][j] == x;
        assert s[j + 1] == x;
      }
    }
  }

  lemma {:induction false} FilterAppend<T(!new)>(a: seq<T>, b: seq<T>, keep: T -> bool)
    ensures Filter(a + b, keep) == Filter(a, keep) + Filter(b, keep)
  {
    if a == [] {
      assert a + b == b;
    } else {
      assert (a + b)[1..] == a[1..] + b;
      FilterAppend(a[1..], b, keep);
    }
  }

  lemma {:induction false} FilterKeepsAll<T(!new)>(s: seq<T>, keep: T -> bool)
    requires forall x :: x in s ==> keep(x)
    ensures Filter(s, keep) == s
  {
    if s != [] {
      FilterKeepsAll(s[1..], keep);
    }
  }

  lemma FilterKeepsNone<T(!new)>(s: seq<T>, keep: T -> bool)
    requires forall x :: x in s ==> !keep(x)
    ensures Filter(s, keep) == []
  {
  }

  /** Two ascending sequences holding the same rows are the same sequence. */
  lemma {:induction false} AscendingUnique<T>(a: seq<T>, b: seq<T>, key: T -> int)
    requires Ascending(a, key) && Ascending(b, key)
    requires forall x :: x in a <==> x in b
    ensures a == b
  {
    if b != [] {
      assert b[0] in b;
    }
    if a == [] {
      assert b == [];
    } else {
      assert a[0] in b && b[0] in b;
      assert a[0] == b[0];
      forall x
        ensures x in a[1..] <==> x in b[1..]
      {
        if x in a[1..] {
          var i :| 0 <= i < |a[1..]| && a[1..][i] == x;
          assert key(a[0]) < key(x);
          assert x in b;
          assert x != b[0];
          var j :| 0 <= j < |b| && b[j] == x;
          assert b[1..][j - 1] == x;
        }
        if x in b[1..] {
          var i :| 0 <= i < |b[1..]| && b[1..][i] == x;
          assert key(b[0]) < key(x);
          assert x in a;
          assert x != a[0];
          var j :| 0 <= j < |a| && a[j] == x;
          assert a[1..][j - 1] == x;
        }
      }
      AscendingUnique(a[1..], b[1..], key);
      assert a == [a[0]] + a[1..];
      assert b == [b[0]] + b[1..];
    }
  }

  /** `transaction_items where transaction_id = tid`, in stored order. */
  function ItemsOf(items: seq<TransactionItem>, tid: nat): (r: seq<TransactionItem>)
    ensures forall it :: it in r <==> it in items && it.transactionId == tid
  {
    Filter(items, (it: TransactionItem) => it.transactionId == tid)
  }

  /** ON DELETE CASCADE of transaction_items.transaction_id: the items left once transaction `tid` is deleted. */
  function CascadeTransactionDelete(items: seq<TransactionItem>, tid: nat): (r: seq<TransactionItem>)
    ensures forall it :: it in r <==> it in items && it.transactionId != tid
  {
    Filter(items, (it: TransactionItem) => it.transactionId != tid)
  }

  /** ON DELETE CASCADE of transaction_items.product_id: the items left once product `pid` is deleted. */
  function CascadeProductDelete(items: seq<TransactionItem>, pid: nat): (r: seq<TransactionItem>)
    ensures forall it :: it in r <==> it in items && it.productId != pid
  {
    Filter(items, (it: TransactionItem) => it.productId != pid)
  }

  /** Deletion of one item row by its primary key. */
  function WithoutItem(items: seq<TransactionItem>, id: nat): (r: seq<TransactionItem>)
    ensures forall it :: it in r <==> it in items && it.id != id
  {
    Filter(items, (it: TransactionItem) => it.id != id)
  }

  /** The keys of `keys` below `n`, in ascending order: the scan of an auto-increment key. */
  function KeysBelow(keys: set<nat>, n: nat): (r: seq<nat>)
    ensures forall k :: k in r <==> k in keys && k < n
    ensures forall i :: 0 <= i < |r| ==> r[i] < n
    ensures forall i, j :: 0 <= i < j < |r| ==> r[i] < r[j]
  {
    if n == 0 then []
    else KeysBelow(keys, n - 1) + (if n - 1 in keys then [n - 1] else [])
  }

  /** Every row is stored under its own id, below the next id to be handed out. */
  predicate ProductsKeyed(products: map<nat, Product>, next: nat)
  {
    forall k :: k in products ==> products[k].id == k && k < next
  }

  /** As ProductsKeyed, and every status is one of the three known ones. */
  predicate TransactionsKeyed(transactions: map<nat, Transaction>, next: nat)
  {
    forall k :: k in transactions ==>
      transactions[k].id == k && k < next && IsStatus(transactions[k].status)
  }

  predicate ItemsKeyed(items: seq<TransactionItem>, next: nat)
  {
    Ascending(items, ItemKey) && forall it :: it in items ==> it.id < next
  }

  /** Foreign key transaction_items.transaction_id references transactions.id. */
  predicate ItemTransactionsExist(transactions: map<nat, Transaction>, items: seq<TransactionItem>)
  {
    forall it :: it in items ==> it.transactionId in transactions
  }

  /** Foreign key transaction_items.product_id references products.id. */
  predicate ItemProductsExist(products: map<nat, Product>, items: seq<TransactionItem>)
  {
    forall it :: it in items ==> it.productId in products
  }

  predicate ColumnsFit(items: seq<TransactionItem>)
  {
    forall it :: it in items ==> ItemFits(it.quantity, it.price)
  }

  /** Every table constraint at once. */
  predicate Consistent(products: map<nat, Product>, transactions: map<nat, Transaction>,
                       items: seq<TransactionItem>, nextProduct: nat, nextTransaction: nat, nextItem: nat)
  {
    ProductsKeyed(products, nextProduct) &&
    TransactionsKeyed(transactions, nextTransaction) &&
    ItemsKeyed(items, nextItem) &&
    ItemTransactionsExist(transactions, items) &&
    ItemProductsExist(products, items) &&
    ColumnsFit(items)
  }

  /** All transaction rows, in ascending id order. */
  function TransactionRows(transactions: map<nat, Transaction>, next: nat): (r: seq<Transaction>)
    requires TransactionsKeyed(transactions, next)
    ensures forall t :: t in r <==> t in transactions.Values
    ensures Ascending(r, TransactionKey)
  {
    var ks := KeysBelow(transactions.Keys, next);
    var r := seq(|ks|, i requires 0 <= i < |ks| => transactions[ks[i]]);
    assert forall t :: t in transactions.Values ==> t in r by {
      forall t | t in transactions.Values ensures t in r {
        var k :| k in transactions && transactions[k] == t;
        var i :| 0 <= i < |ks| && ks[i] == k;
        assert r[i] == t;
      }
    }
    r
  }

  /** All product rows, in ascending id order. */
  function ProductRows(products: map<nat, Product>, next: nat): (r: seq<Product>)
    requires ProductsKeyed(products, next)
    ensures forall p :: p in r <==> p in products.Values
    ensures Ascending(r, ProductKey)
  {
    var ks := KeysBelow(products.Keys, next);
    var r := seq(|ks|, i requires 0 <= i < |ks| => products[ks[i]]);
    assert forall p :: p in products.Values ==> p in r by {
      forall p | p in products.Values ensures p in r {
        var k :| k in products && products[k] == p;
        var i :| 0 <= i < |ks| && ks[i] == k;
        assert r[i] == p;
      }
    }
    r
  }

  /** Deleting a transaction leaves the item table consistent and holding none of its items. */
  lemma TransactionCascadeKeepsKeys(transactions: map<nat, Transaction>, products: map<nat, Product>,
                                    items: seq<TransactionItem>, tid: nat)
    requires ItemTransactionsExist(transactions, items) && ItemProductsExist(products, items)
    ensures var left := CascadeTransactionDelete(items, tid);
      ItemTransactionsExist(transactions - {tid}, left) && ItemProductsExist(products, left) &&
      ItemsOf(left, tid) == []
  {
    var left := CascadeTransactionDelete(items, tid);
    FilterKeepsNone(left, (it: TransactionItem) => it.transactionId == tid);
  }

  /** Deleting a product leaves the item table consistent and no item refers to it. */
  lemma ProductCascadeKeepsKeys(transactions: map<nat, Transaction>, products: map<nat, Product>,
                                items: seq<TransactionItem>, pid: nat)
    requires ItemTransactionsExist(transactions, items) && ItemProductsExist(products, items)
    ensures var left := CascadeProductDelete(items, pid);
      ItemTransactionsExist(transactions, left) && ItemProductsExist(products - {pid}, left) &&
      forall it :: it in left ==> it.productId != pid
  {
  }
}
