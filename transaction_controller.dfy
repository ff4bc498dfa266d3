/**
 * The transaction controller: checkout, the list and detail queries, cancel,
 * status update and delete. State-changing operations are methods on the
 * Store; the queries are functions of the table contents.
 */
module TransactionController {
  import opened Wrappers
  import opened Tables
  import opened Responses
  import opened Database

  /** One entry of `cartItems`. A field is None when it is missing or not of the type its rule asks for. */
  datatype CartEntry = CartEntry(productId: Option<int>, quantity: Option<int>, price: Option<int>)

  /**
   * The checkout request. `totalAmount` is in cents and None when missing or
   * not numeric; `cartItems` is None when missing or not an array.
   */
  datatype CheckoutRequest = CheckoutRequest(userId: nat, totalAmount: Option<int>, cartItems: Option<seq<CartEntry>>)

  /** A cart entry that passed validation. */
  datatype CartLine = CartLine(productId: nat, quantity: int, price: int)

  /** A checkout request that passed validation. */
  datatype Order = Order(totalAmount: int, lines: seq<CartLine>)

  /** The rules on one cart entry: product_id exists in products, quantity an integer >= 1, price a number >= 0. */
  predicate EntryValid(productIds: set<nat>, e: CartEntry)
  {
    e.productId.Some? && e.productId.value >= 0 && e.productId.value as nat in productIds &&
    e.quantity.Some? && e.quantity.value >= 1 &&
    e.price.Some? && e.price.value >= 0
  }

  /** The per-entry rules over the whole cart; on success the entries, in cart order. */
  function ValidateCart(productIds: set<nat>, entries: seq<CartEntry>): (r: Option<seq<CartLine>>)
    ensures r.Some? <==> forall i :: 0 <= i < |entries| ==> EntryValid(productIds, entries[i])
    ensures r.Some? ==> |r.value| == |entries|
    ensures r.Some? ==> forall i :: 0 <= i < |entries| ==>
      r.value[i] == CartLine(entries[i].productId.value as nat, entries[i].quantity.value, entries[i].price.value)
  {
    if entries == [] then Some([])
    else if !EntryValid(productIds, entries[0]) then None
    else
      match ValidateCart(productIds, entries[1..])
      case None =>
        assert exists i :: 1 <= i < |entries| && !EntryValid(productIds, entries[i]) by {
          var j :| 0 <= j < |entries[1..]| && !EntryValid(productIds, entries[1..][j]);
          assert entries[j + 1] == entries[1..][j];
        }
        None
      case Some(rest) =>
        var e := entries[0];
        Some([CartLine(e.productId.value as nat, e.quantity.value, e.price.value)] + rest)
  }

  /**
   * The checkout validation: totalAmount required and numeric, cartItems a
   * required non-empty array, and every entry valid.
   */
  function ValidateCheckout(productIds: set<nat>, req: CheckoutRequest): (r: Option<Order>)
    ensures r.Some? <==>
      req.totalAmount.Some? && req.cartItems.Some? && |req.cartItems.value| > 0 &&
      forall i :: 0 <= i < |req.cartItems.value| ==> EntryValid(productIds, req.cartItems.value[i])
    ensures r.Some? ==> r.value.totalAmount == req.totalAmount.value && |r.value.lines| > 0
    ensures r.Some? ==> ValidateCart(productIds, req.cartItems.value) == Some(r.value.lines)
  {
    if req.totalAmount.None? || req.cartItems.None? || |req.cartItems.value| == 0 then None
    else
      match ValidateCart(productIds, req.cartItems.value)
      case None => None
      case Some(lines) => Some(Order(req.totalAmount.value, lines))
  }

  predicate LineFits(line: CartLine)
  {
    ItemFits(line.quantity, line.price)
  }

  /** The index of the first line whose row the database refuses, or |lines| when it takes them all. */
  function FirstMisfit(lines: seq<CartLine>): (k: nat)
    ensures k <= |lines|
    ensures forall i :: 0 <= i < k ==> LineFits(lines[i])
    ensures k < |lines| ==> !LineFits(lines[k])
  {
    if lines == [] || !LineFits(lines[0]) then 0
    else 1 + FirstMisfit(lines[1..])
  }

  /** The item rows checkout writes for `lines` under transaction `tid`, ids from `first` on. */
  function ItemRows(tid: nat, first: nat, lines: seq<CartLine>): (r: seq<TransactionItem>)
  {
    seq(|lines|, i requires 0 <= i < |lines| =>
      TransactionItem(first + i, tid, lines[i].productId, lines[i].quantity, lines[i].price))
  }

  /**
   * The loop of checkout: one item row per line, in order, under transaction
   * `tid`. It stops at the first row the database refuses and returns how
   * many rows it wrote.
   */
  method InsertItems(db: Store, tid: nat, lines: seq<CartLine>) returns (written: nat)
    requires db.Valid() && tid in db.transactions
    requires forall i :: 0 <= i < |lines| ==> lines[i].productId in db.products
    modifies db
    ensures db.Valid()
    ensures written == FirstMisfit(lines)
    ensures db.items == old(db.items) + ItemRows(tid, old(db.nextItemId), lines[..written])
    ensures db.products == old(db.products) && db.transactions == old(db.transactions)
    ensures db.nextItemId == old(db.nextItemId) + written
    ensures db.nextProductId == old(db.nextProductId) && db.nextTransactionId == old(db.nextTransactionId)
  {
    written := 0;
    while written < |lines|
      invariant written <= FirstMisfit(lines)
      invariant db.Valid()
      invariant db.products == old(db.products) && db.transactions == old(db.transactions)
      invariant db.nextProductId == old(db.nextProductId) && db.nextTransactionId == old(db.nextTransactionId)
      invariant db.items == old(db.items) + ItemRows(tid, old(db.nextItemId), lines[..written])
      invariant db.nextItemId == old(db.nextItemId) + written
    {
      var line := lines[written];
      var ok, it := db.InsertItem(tid, line.productId, line.quantity, line.price);
      if !ok {
        return;
      }
      assert ItemRows(tid, old(db.nextItemId), lines[..written + 1]) ==
             ItemRows(tid, old(db.nextItemId), lines[..written]) + [it];
      written := written + 1;
    }
  }

  /**
   * POST checkout. Validation comes before any write. Then one transaction
   * row holding the request's userId and totalAmount, then one item row per
   * cart line, in cart order. A row the database refuses ends the loop with
   * 500 and the rows already written stay.
   */
  method Checkout(db: Store, req: CheckoutRequest) returns (r: Response)
    requires db.Valid()
    modifies db
    ensures db.Valid()
    ensures db.products == old(db.products) && db.nextProductId == old(db.nextProductId)
    ensures ValidateCheckout(old(db.products).Keys, req).None? ==> r == ValidationFailed && unchanged(db)
    ensures ValidateCheckout(old(db.products).Keys, req).Some? ==>
      var order := ValidateCheckout(old(db.products).Keys, req).value;
      var tid := old(db.nextTransactionId);
      var written := FirstMisfit(order.lines);
      tid !in old(db.transactions) &&
      db.transactions ==
        old(db.transactions)[tid := Transaction(tid, req.userId, order.totalAmount, InitialStatus, InitialCancelled)] &&
      db.items == old(db.items) + ItemRows(tid, old(db.nextItemId), order.lines[..written]) &&
      db.nextTransactionId == tid + 1 && db.nextItemId == old(db.nextItemId) + written &&
      r == if written == |order.lines|
           then JsonResponse(TransactionId(tid), Some("Checkout successful"), 200)
           else JsonResponse(NoData, Some("Checkout failed"), 500)
  {
    var validated := ValidateCheckout(db.products.Keys, req);
    if validated.None? {
      return ValidationFailed;
    }
    var order := validated.value;
    var t := db.InsertTransaction(req.userId, order.totalAmount);
    var written := InsertItems(db, t.id, order.lines);
    if written < |order.lines| {
      return JsonResponse(NoData, Some("Checkout failed"), 500);
    }
    r := JsonResponse(TransactionId(t.id), Some("Checkout successful"), 200);
  }

  /** A cancelled transaction: status "cancelled" and the cancelled flag set, all else kept. */
  function Cancelled(t: Transaction): (r: Transaction)
    ensures r.status == StatusCancelled && r.cancelled
    ensures r.id == t.id && r.userId == t.userId && r.totalAmount == t.totalAmount
  {
    t.(status := StatusCancelled, cancelled := true)
  }

  lemma CancelIsIdempotent(t: Transaction)
    ensures Cancelled(Cancelled(t)) == Cancelled(t)
  {
  }

  /** PUT cancel: 404 on a missing id; otherwise sets both status and cancelled. */
  method CancelTransaction(db: Store, id: nat) returns (r: Response)
    requires db.Valid()
    modifies db
    ensures db.Valid()
    ensures db.nextProductId == old(db.nextProductId) && db.nextTransactionId == old(db.nextTransactionId)
    ensures db.nextItemId == old(db.nextItemId)
    ensures id !in old(db.transactions) ==>
      r == JsonResponse(NoData, Some("Transaction not found"), 404) && unchanged(db)
    ensures id in old(db.transactions) ==>
      r == JsonResponse(NoData, Some("Transaction cancelled successfully"), 200) &&
      db.transactions == old(db.transactions)[id := Cancelled(old(db.transactions)[id])] &&
      db.products == old(db.products) && db.items == old(db.items)
  {
    if id !in db.transactions {
      return JsonResponse(NoData, Some("Transaction not found"), 404);
    }
    db.SaveTransaction(Cancelled(db.transactions[id]));
    r := JsonResponse(NoData, Some("Transaction cancelled successfully"), 200);
  }

  /**
   * PATCH update-status: existence is checked (404) before the status is
   * validated (422). Only status changes; the cancelled flag keeps its value.
   */
  method UpdateStatus(db: Store, id: nat, status: Option<string>) returns (r: Response)
    requires db.Valid()
    modifies db
    ensures db.Valid()
    ensures db.nextProductId == old(db.nextProductId) && db.nextTransactionId == old(db.nextTransactionId)
    ensures db.nextItemId == old(db.nextItemId)
    ensures id !in old(db.transactions) ==>
      r == JsonResponse(NoData, Some("Transaction not found"), 404) && unchanged(db)
    ensures id in old(db.transactions) && !(status.Some? && IsStatus(status.value)) ==>
      r == ValidationFailed && unchanged(db)
    ensures id in old(db.transactions) && status.Some? && IsStatus(status.value) ==>
      r == JsonResponse(NoData, Some("Transaction status updated successfully"), 200) &&
      db.transactions == old(db.transactions)[id := old(db.transactions)[id].(status := status.value)] &&
      db.transactions[id].cancelled == old(db.transactions)[id].cancelled &&
      db.products == old(db.products) && db.items == old(db.items)
  {
    if id !in db.transactions {
      return JsonResponse(NoData, Some("Transaction not found"), 404);
    }
    if !(status.Some? && IsStatus(status.value)) {
      return ValidationFailed;
    }
    db.SaveTransaction(db.transactions[id].(status := status.value));
    r := JsonResponse(NoData, Some("Transaction status updated successfully"), 200);
  }

  /** In an id-ordered table, a row is determined by its id. */
  lemma SameIdSameItem(items: seq<TransactionItem>, x: TransactionItem, y: TransactionItem)
    requires Ascending(items, ItemKey) && x in items && y in items && x.id == y.id
    ensures x == y
  {
  }

  /** The loop of deleteTransaction: deletes each of `doomed`, one row at a time by primary key. */
  method DeleteItems(db: Store, doomed: seq<TransactionItem>)
    requires db.Valid()
    requires forall it :: it in doomed ==> it in db.items
    modifies db
    ensures db.Valid()
    ensures forall it :: it in db.items <==> it in old(db.items) && it !in doomed
    ensures db.products == old(db.products) && db.transactions == old(db.transactions)
    ensures db.nextProductId == old(db.nextProductId) && db.nextTransactionId == old(db.nextTransactionId)
    ensures db.nextItemId == old(db.nextItemId)
  {
    var i := 0;
    while i < |doomed|
      invariant 0 <= i <= |doomed|
      invariant db.Valid()
      invariant db.products == old(db.products) && db.transactions == old(db.transactions)
      invariant db.nextProductId == old(db.nextProductId) && db.nextTransactionId == old(db.nextTransactionId)
      invariant db.nextItemId == old(db.nextItemId)
      invariant forall it :: it in db.items <==> it in old(db.items) && it !in doomed[..i]
    {
      ghost var before := db.items;
      db.DeleteItem(doomed[i].id);
      forall it
        ensures it in db.items <==> it in old(db.items) && it !in doomed[..i + 1]
      {
        assert doomed[..i + 1] == doomed[..i] + [doomed[i]];
        if it in before && it.id == doomed[i].id {
          SameIdSameItem(old(db.items), it, doomed[i]);
        }
      }
      i := i + 1;
    }
    assert doomed[..i] == doomed;
  }

  /**
   * DELETE transaction. A missing id makes find() give null and the call to
   * delete() on it an uncaught error (500) before anything is written.
   * Otherwise the row goes, the cascade takes its items, and the loop over
   * the items still found for it has nothing left to delete.
   */
  method DeleteTransaction(db: Store, id: nat) returns (r: Response)
    requires db.Valid()
    modifies db
    ensures db.Valid()
    ensures db.nextProductId == old(db.nextProductId) && db.nextTransactionId == old(db.nextTransactionId)
    ensures db.nextItemId == old(db.nextItemId)
    ensures id !in old(db.transactions) ==> r == ServerError && unchanged(db)
    ensures id in old(db.transactions) ==>
      r == JsonResponse(NoData, Some("Transaction and transaction items deleted successfully"), 200) &&
      db.transactions == old(db.transactions) - {id} &&
      db.items == CascadeTransactionDelete(old(db.items), id) &&
      db.products == old(db.products)
  {
    if id !in db.transactions {
      return ServerError;
    }
    db.DeleteTransactionRow(id);
    ghost var afterCascade := db.items;
    var found := ItemsOf(db.items, id);
    DeleteItems(db, found);
    TransactionCascadeKeepsKeys(old(db.transactions), old(db.products), old(db.items), id);
    AscendingUnique(db.items, afterCascade, ItemKey);
    r := JsonResponse(NoData, Some("Transaction and transaction items deleted successfully"), 200);
  }

  /** One line of the detail: the item's product name, quantity and price. */
  function DetailOf(products: map<nat, Product>, it: TransactionItem): DetailLine
    requires it.productId in products
  {
    DetailLine(products[it.productId].name, it.quantity, it.price)
  }

  /**
   * GET detail: one line per item of transaction `tid`, in stored order;
   * 404 when it has none, whether or not the transaction row exists.
   */
  function TransactionDetail(products: map<nat, Product>, items: seq<TransactionItem>, tid: nat): (r: Response)
    requires ItemProductsExist(products, items)
    ensures ItemsOf(items, tid) == [] <==> r == JsonResponse(NoData, Some("Transaction items not found"), 404)
    ensures ItemsOf(items, tid) != [] ==>
      r.Envelope? && StatusCode(r) == 200 && r.data.TransactionItems? &&
      |r.data.lines| == |ItemsOf(items, tid)| &&
      forall i :: 0 <= i < |r.data.lines| ==> r.data.lines[i] == DetailOf(products, ItemsOf(items, tid)[i])
  {
    var found := ItemsOf(items, tid);
    if found == [] then JsonResponse(NoData, Some("Transaction items not found"), 404)
    else JsonResponse(TransactionItems(seq(|found|, i requires 0 <= i < |found| => DetailOf(products, found[i]))), None, 200)
  }

  /** GET transactions of a user: exactly that user's rows in id order, possibly none. */
  function GetTransactions(transactions: map<nat, Transaction>, next: nat, userId: nat): (r: Response)
    requires TransactionsKeyed(transactions, next)
    ensures r.Envelope? && r.success && StatusCode(r) == 200 && r.message == None && r.data.Transactions?
    ensures forall t :: t in r.data.transactions <==> t in transactions.Values && t.userId == userId
    ensures Ascending(r.data.transactions, TransactionKey)
  {
    var all := TransactionRows(transactions, next);
    var keep := (t: Transaction) => t.userId == userId;
    FilterAscending(all, keep, TransactionKey);
    JsonResponse(Transactions(Filter(all, keep)), None, 200)
  }

  /** GET all transactions: every row in id order. */
  function GetAllTransactions(transactions: map<nat, Transaction>, next: nat): (r: Response)
    requires TransactionsKeyed(transactions, next)
    ensures r.Envelope? && r.success && StatusCode(r) == 200 && r.message == None && r.data.Transactions?
    ensures forall t :: t in r.data.transactions <==> t in transactions.Values
    ensures Ascending(r.data.transactions, TransactionKey)
  {
    JsonResponse(Transactions(TransactionRows(transactions, next)), None, 200)
  }

  /** The items a checkout appends under a fresh id are exactly that transaction's items. */
  lemma {:induction false} CheckoutItemsAreTheTransactionsItems(items: seq<TransactionItem>, tid: nat, first: nat,
                                                                lines: seq<CartLine>)
    requires forall it :: it in items ==> it.transactionId != tid
    ensures ItemsOf(items + ItemRows(tid, first, lines), tid) == ItemRows(tid, first, lines)
  {
    var keep := (it: TransactionItem) => it.transactionId == tid;
    FilterAppend(items, ItemRows(tid, first, lines), keep);
    FilterKeepsNone(items, keep);
    FilterKeepsAll(ItemRows(tid, first, lines), keep);
  }

  /** After a checkout that wrote all its lines, the detail lists the cart, line by line. */
  lemma DetailAfterCheckout(products: map<nat, Product>, items: seq<TransactionItem>, tid: nat, first: nat,
                            lines: seq<CartLine>)
    requires ItemProductsExist(products, items)
    requires forall it :: it in items ==> it.transactionId != tid
    requires forall i :: 0 <= i < |lines| ==> lines[i].productId in products
    requires |lines| > 0
    ensures ItemProductsExist(products, items + ItemRows(tid, first, lines))
    ensures var r := TransactionDetail(products, items + ItemRows(tid, first, lines), tid);
      StatusCode(r) == 200 && r.data.TransactionItems? && |r.data.lines| == |lines| &&
      forall i :: 0 <= i < |lines| ==>
        r.data.lines[i] == DetailLine(products[lines[i].productId].name, lines[i].quantity, lines[i].price)
  {
    var rows := ItemRows(tid, first, lines);
    assert forall it :: it in rows ==> it.productId in products by {
      forall it | it in rows ensures it.productId in products {
        var i :| 0 <= i < |rows| && rows[i] == it;
      }
    }
    CheckoutItemsAreTheTransactionsItems(items, tid, first, lines);
  }

  /** After a transaction is deleted its detail is 404. */
  lemma DetailAfterDelete(transactions: map<nat, Transaction>, products: map<nat, Product>,
                          items: seq<TransactionItem>, tid: nat)
    requires ItemTransactionsExist(transactions, items) && ItemProductsExist(products, items)
    ensures ItemProductsExist(products, CascadeTransactionDelete(items, tid))
    ensures TransactionDetail(products, CascadeTransactionDelete(items, tid), tid) ==
            JsonResponse(NoData, Some("Transaction items not found"), 404)
  {
    TransactionCascadeKeepsKeys(transactions, products, items, tid);
  }

  /**
   * When every item of transaction `tid` refers to product `pid`, deleting
   * that product cascades to all of them and the detail becomes 404.
   */
  lemma DetailAfterProductDelete(products: map<nat, Product>,
                                 items: seq<TransactionItem>, tid: nat, pid: nat)
    requires ItemProductsExist(products, items)
    requires forall it :: it in items && it.transactionId == tid ==> it.productId == pid
    ensures ItemProductsExist(products - {pid}, CascadeProductDelete(items, pid))
    ensures TransactionDetail(products - {pid}, CascadeProductDelete(items, pid), tid) ==
            JsonResponse(NoData, Some("Transaction items not found"), 404)
  {
    var left := CascadeProductDelete(items, pid);
    FilterKeepsNone(left, (it: TransactionItem) => it.transactionId == tid);
  }
}
