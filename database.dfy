/** The tables the controllers read and write, held by one storage handle.
    Each table with an auto-increment key keeps the next key it will hand
    out. */
module Database {
  import opened Records

  class Db {
    var users: map<int, User>
    var categories: map<int, Category>
    var products: map<int, Product>
    var transactions: map<int, Transaction>
    /** `transaction_details`, in insertion (and so id) order. */
    var details: seq<Detail>

    var nextCategoryId: int
    var nextProductId: int
    var nextTransactionId: int
    var nextDetailId: int

    /** Every row is stored under its own id, below the next id to be handed
        out; detail rows only point at headers that were handed an id. */
    ghost predicate Valid()
      reads this
    {
      && CategoriesKeyed(categories, nextCategoryId)
      && ProductsKeyed(products, nextProductId)
      && TransactionsKeyed(transactions, nextTransactionId)
      && DetailsBelow(details, nextDetailId, nextTransactionId)
    }

    /** Empty catalog and ledger over a given users table. */
    constructor (users: map<int, User>)
      ensures Valid()
      ensures this.users == users
      ensures categories == map[] && products == map[] && transactions == map[] && details == []
      ensures nextCategoryId == nextProductId == nextTransactionId == nextDetailId == 1
    {
      this.users := users;
      categories, products, transactions, details := map[], map[], map[], [];
      nextCategoryId, nextProductId, nextTransactionId, nextDetailId := 1, 1, 1, 1;
    }
  }

  /** Where `patchAndFetchById` throws: the patch, or the fetch that
      follows it as a separate query (the patch then stays). */
  datatype UpdateFault = NoUpdateFault | FailsOnPatch | FailsOnFetch

  ghost predicate CategoriesKeyed(categories: map<int, Category>, next: int) {
    0 < next && forall id :: id in categories ==> categories[id].id == id && 0 < id < next
  }

  ghost predicate ProductsKeyed(products: map<int, Product>, next: int) {
    0 < next && forall id :: id in products ==> products[id].id == id && 0 < id < next
  }

  ghost predicate TransactionsKeyed(transactions: map<int, Transaction>, next: int) {
    0 < next && forall id :: id in transactions ==> transactions[id].id == id && 0 < id < next
  }

  /** Detail rows hold ids below the next one, in increasing order (so no
      two share an id), and point at headers that were handed an id. */
  ghost predicate DetailsBelow(details: seq<Detail>, next: int, nextTransaction: int) {
    && 0 < next
    && (forall i :: 0 <= i < |details| ==> 0 < details[i].id < next && details[i].transactionId < nextTransaction)
    && IdsIncreasing(details)
  }

  /** Auto-increment hands detail ids out in insertion order. */
  ghost predicate IdsIncreasing(details: seq<Detail>) {
    forall i, j :: 0 <= i < j < |details| ==> details[i].id < details[j].id
  }

  /** What `ON DELETE CASCADE` leaves of `transaction_details` once the
      headers in `transactionIds` and the products in `productIds` are gone:
      the other rows, in their order. */
  function DetailsKept(details: seq<Detail>, transactionIds: set<int>, productIds: set<int>): (r: seq<Detail>)
    ensures |r| <= |details|
    ensures forall i :: 0 <= i < |r| ==> r[i].transactionId !in transactionIds && r[i].productId !in productIds
    ensures forall d :: d in r <==> d in details && d.transactionId !in transactionIds && d.productId !in productIds
    ensures IdsIncreasing(details) ==> IdsIncreasing(r)
    ensures forall next, nextTransaction :: DetailsBelow(details, next, nextTransaction) ==> DetailsBelow(r, next, nextTransaction)
  {
    if details == [] then []
    else
      var rest := DetailsKept(details[1..], transactionIds, productIds);
      if details[0].transactionId in transactionIds || details[0].productId in productIds then rest
      else
        KeptHeadIncreasing(details, rest);
        [details[0]] + rest
  }

  /** Keeping the first row in front of rows kept from the rest keeps the
      ids increasing. */
  lemma KeptHeadIncreasing(details: seq<Detail>, rest: seq<Detail>)
    requires details != [] && forall d :: d in rest ==> d in details[1..]
    ensures IdsIncreasing(details) && IdsIncreasing(rest) ==> IdsIncreasing([details[0]] + rest)
  {
    if IdsIncreasing(details) && IdsIncreasing(rest) {
      var r := [details[0]] + rest;
      forall i, j | 0 <= i < j < |r|
        ensures r[i].id < r[j].id
      {
        assert r[j] == rest[j - 1];
        if i == 0 {
          assert rest[j - 1] in rest;
          var k :| 0 <= k < |details[1..]| && details[1..][k] == r[j];
          assert details[k + 1] == r[j];
        } else {
          assert r[i] == rest[i - 1];
        }
      }
    }
  }

  /** The products whose `category_id` is not `categoryId`: what the cascade
      of a category delete leaves. */
  function ProductsOutside(products: map<int, Product>, categoryId: int): (r: map<int, Product>)
    ensures r.Keys <= products.Keys
    ensures forall id :: id in r ==> r[id] == products[id] && r[id].categoryId != categoryId
    ensures forall id :: id in products && products[id].categoryId != categoryId ==> id in r
  {
    map id | id in products && products[id].categoryId != categoryId :: products[id]
  }
}
