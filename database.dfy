/**
 * The shop's database: the products, transactions and transaction_items
 * tables with their auto-increment counters, and the row operations the
 * controllers perform through the ORM (insert, save, delete). Deletions
 * apply the ON DELETE CASCADE rules of transaction_items.
 */
module Database {
  import opened Wrappers
  import opened Tables

  class Store {
    var products: map<nat, Product>
    var transactions: map<nat, Transaction>
    /** transaction_items, in ascending id order. */
    var items: seq<TransactionItem>
    var nextProductId: nat
    var nextTransactionId: nat
    var nextItemId: nat

    ghost predicate Valid()
      reads this
    {
      Consistent(products, transactions, items, nextProductId, nextTransactionId, nextItemId)
    }

    constructor ()
      ensures Valid()
      ensures products == map[] && transactions == map[] && items == []
    {
      products, transactions, items := map[], map[], [];
      nextProductId, nextTransactionId, nextItemId := 1, 1, 1;
    }

    /** Product::create: a new row under the next product id. */
    method InsertProduct(name: string, price: int, description: string, image: Option<string>)
      returns (p: Product)
      requires Valid()
      modifies this
      ensures Valid()
      ensures p == Product(old(nextProductId), name, price, description, image)
      ensures p.id !in old(products) && products == old(products)[p.id := p]
      ensures nextProductId == old(nextProductId) + 1
      ensures transactions == old(transactions) && items == old(items)
      ensures nextTransactionId == old(nextTransactionId) && nextItemId == old(nextItemId)
    {
      p := Product(nextProductId, name, price, description, image);
      products := products[p.id := p];
      nextProductId := nextProductId + 1;
    }

    /** $product->save() on a row that exists. */
    method SaveProduct(p: Product)
      requires Valid() && p.id in products
      modifies this
      ensures Valid()
      ensures products == old(products)[p.id := p]
      ensures transactions == old(transactions) && items == old(items)
      ensures nextProductId == old(nextProductId) && nextTransactionId == old(nextTransactionId)
      ensures nextItemId == old(nextItemId)
    {
      products := products[p.id := p];
    }

    /** $product->delete(), with the cascade to transaction_items.product_id. */
    method DeleteProductRow(id: nat)
      requires Valid() && id in products
      modifies this
      ensures Valid()
      ensures products == old(products) - {id}
      ensures items == CascadeProductDelete(old(items), id)
      ensures transactions == old(transactions)
      ensures nextProductId == old(nextProductId) && nextTransactionId == old(nextTransactionId)
      ensures nextItemId == old(nextItemId)
    {
      ProductCascadeKeepsKeys(transactions, products, items, id);
      FilterAscending(items, (it: TransactionItem) => it.productId != id, ItemKey);
      products := products - {id};
      items := CascadeProductDelete(items, id);
    }

    /** $transaction->save() of a new row: the status and cancelled columns take their defaults. */
    method InsertTransaction(userId: nat, totalAmount: int) returns (t: Transaction)
      requires Valid()
      modifies this
      ensures Valid()
      ensures t == Transaction(old(nextTransactionId), userId, totalAmount, InitialStatus, InitialCancelled)
      ensures t.id !in old(transactions) && transactions == old(transactions)[t.id := t]
      ensures nextTransactionId == old(nextTransactionId) + 1
      ensures products == old(products) && items == old(items)
      ensures nextProductId == old(nextProductId) && nextItemId == old(nextItemId)
    {
      t := Transaction(nextTransactionId, userId, totalAmount, InitialStatus, InitialCancelled);
      transactions := transactions[t.id := t];
      nextTransactionId := nextTransactionId + 1;
    }

    /** $transaction->save() on a row that exists. */
    method SaveTransaction(t: Transaction)
      requires Valid() && t.id in transactions && IsStatus(t.status)
      modifies this
      ensures Valid()
      ensures transactions == old(transactions)[t.id := t]
      ensures products == old(products) && items == old(items)
      ensures nextProductId == old(nextProductId) && nextTransactionId == old(nextTransactionId)
      ensures nextItemId == old(nextItemId)
    {
      transactions := transactions[t.id := t];
    }

    /** $transaction->delete(), with the cascade to transaction_items.transaction_id. */
    method DeleteTransactionRow(id: nat)
      requires Valid() && id in transactions
      modifies this
      ensures Valid()
      ensures transactions == old(transactions) - {id}
      ensures items == CascadeTransactionDelete(old(items), id)
      ensures products == old(products)
      ensures nextProductId == old(nextProductId) && nextTransactionId == old(nextTransactionId)
      ensures nextItemId == old(nextItemId)
    {
      TransactionCascadeKeepsKeys(transactions, products, items, id);
      FilterAscending(items, (it: TransactionItem) => it.transactionId != id, ItemKey);
      transactions := transactions - {id};
      items := CascadeTransactionDelete(items, id);
    }

    /**
     * $transactionItem->save() of a new row. The database refuses the row
     * when a foreign key has no target or a value does not fit its column.
     */
    method InsertItem(transactionId: nat, productId: nat, quantity: int, price: int)
      returns (ok: bool, it: TransactionItem)
      requires Valid()
      modifies this
      ensures Valid()
      ensures it == TransactionItem(old(nextItemId), transactionId, productId, quantity, price)
      ensures ok <==> transactionId in transactions && productId in products && ItemFits(quantity, price)
      ensures ok ==> items == old(items) + [it] && nextItemId == old(nextItemId) + 1
      ensures !ok ==> items == old(items) && nextItemId == old(nextItemId)
      ensures products == old(products) && transactions == old(transactions)
      ensures nextProductId == old(nextProductId) && nextTransactionId == old(nextTransactionId)
    {
      it := TransactionItem(nextItemId, transactionId, productId, quantity, price);
      ok := transactionId in transactions && productId in products && ItemFits(quantity, price);
      if ok {
        items := items + [it];
        nextItemId := nextItemId + 1;
      }
    }

    /** $transactionItem->delete(): removes the row with that primary key. */
    method DeleteItem(id: nat)
      requires Valid()
      modifies this
      ensures Valid()
      ensures items == WithoutItem(old(items), id)
      ensures products == old(products) && transactions == old(transactions)
      ensures nextProductId == old(nextProductId) && nextTransactionId == old(nextTransactionId)
      ensures nextItemId == old(nextItemId)
    {
      FilterAscending(items, (it: TransactionItem) => it.id != id, ItemKey);
      items := WithoutItem(items, id);
    }
  }
}
