/** The transaction endpoints: list, post a sale, show one with its details,
    delete one. */
module TransactionController {
  import opened Records
  import opened ResponseHelper
  import opened Database
  import opened Posting

  /** The 500 these handlers send: a bare `{message}`, not the error
      envelope. */
  const Failure := Response(500, MessageOnly(InternalServerError))

  /** `index`: every header (the `user` join is not modelled). */
  method Index(db: Db, fails: bool) returns (r: Response)
    ensures fails ==> r == Failure
    ensures !fails ==> r == Response(200, Envelope(200, "Success get transaction", TransactionTable(db.transactions)))
  {
    if fails {
      return Failure;
    }
    r := Response(200, Envelope(200, "Success get transaction", TransactionTable(db.transactions)));
  }

  /** `store`: posting a sale. The loop reads each line's product, adds
      `price * quantity` to the running total, records a draft and patches
      the stock OUTSIDE the database transaction; the header and one detail
      row per draft are then inserted inside it. On any throw the rollback
      removes the header and detail rows, but the stock patches already
      issued stay. */
  method Store(db: Db, userId: Value, lines: seq<Line>, fault: Fault) returns (r: Response)
    requires db.Valid()
    modifies db`products, db`transactions, db`details, db`nextTransactionId, db`nextDetailId
    ensures db.Valid()
    // The loop throws at line k: the patches for lines[..k] persist, nothing else changes.
    ensures StopLine(old(db.products), lines, fault).Some? ==>
      && db.products == ApplyLines(old(db.products), lines[..StopLine(old(db.products), lines, fault).value])
      && db.transactions == old(db.transactions) && db.details == old(db.details)
      && db.nextTransactionId == old(db.nextTransactionId) && db.nextDetailId == old(db.nextDetailId)
      && r == Failure
    // The loop completes: every patch has been issued, whatever happens next.
    ensures StopLine(old(db.products), lines, fault).None? ==> db.products == ApplyLines(old(db.products), lines)
    // The insert stage throws: rolled back, 500. The ids the refused or
    // rolled-back inserts drew stay used.
    ensures StopLine(old(db.products), lines, fault).None? ==>
      var drafts := Drafts(old(db.products), lines);
      !Committed(old(db.users), userId, drafts, fault) ==>
      && db.transactions == old(db.transactions) && db.details == old(db.details)
      && db.nextTransactionId == old(db.nextTransactionId) + (if userId.Int? then 1 else 0)
      && db.nextDetailId == old(db.nextDetailId) + (if userId.Int? && userId.n in old(db.users) then Accepted(drafts) else 0)
      && r == Failure
    // Committed: one header carrying the total, one detail row per line, 201.
    ensures StopLine(old(db.products), lines, fault).None? ==>
      var drafts := Drafts(old(db.products), lines);
      Committed(old(db.users), userId, drafts, fault) ==>
      var header := Transaction(old(db.nextTransactionId), userId.n, Total(drafts));
      && db.transactions == old(db.transactions)[header.id := header]
      && db.details == old(db.details) + Rows(header.id, old(db.nextDetailId), drafts)
      && db.nextTransactionId == old(db.nextTransactionId) + 1
      && db.nextDetailId == old(db.nextDetailId) + |lines|
      && DetailsOf(db.details, header.id) == Rows(header.id, old(db.nextDetailId), drafts)
      && SumSubtotals(DetailsOf(db.details, header.id)) == header.totalAmount
      && r == Response(201, Envelope(201, "Transaction created successfully", TransactionRecord(header)))
  {
    var drafts, totalAmount, stop := PatchStock(db, lines, fault);
    if stop.Some? {
      return Failure;
    }
    r := Record(db, userId, drafts, totalAmount, fault);
  }

  /** The database transaction of `store`: the header, then one detail row
      per draft. The schema refuses a `user_id` that is not a JSON integer
      before any SQL runs; the foreign key refuses one naming no user after
      the insert has drawn its id. A refused detail row or a failed commit
      rolls the inserted rows back; the ids they drew are not given back. */
  method Record(db: Db, userId: Value, drafts: seq<Draft>, totalAmount: int, fault: Fault) returns (r: Response)
    requires TransactionsKeyed(db.transactions, db.nextTransactionId)
    requires DetailsBelow(db.details, db.nextDetailId, db.nextTransactionId)
    modifies db`transactions, db`details, db`nextTransactionId, db`nextDetailId
    ensures TransactionsKeyed(db.transactions, db.nextTransactionId)
    ensures DetailsBelow(db.details, db.nextDetailId, db.nextTransactionId)
    ensures !Committed(db.users, userId, drafts, fault) ==>
      && db.transactions == old(db.transactions) && db.details == old(db.details)
      && db.nextTransactionId == old(db.nextTransactionId) + (if userId.Int? then 1 else 0)
      && db.nextDetailId == old(db.nextDetailId) + (if userId.Int? && userId.n in db.users then Accepted(drafts) else 0)
      && r == Failure
    ensures Committed(db.users, userId, drafts, fault) ==>
      var header := Transaction(old(db.nextTransactionId), userId.n, totalAmount);
      && db.transactions == old(db.transactions)[header.id := header]
      && db.details == old(db.details) + Rows(header.id, old(db.nextDetailId), drafts)
      && db.nextTransactionId == old(db.nextTransactionId) + 1
      && db.nextDetailId == old(db.nextDetailId) + |drafts|
      && DetailsOf(db.details, header.id) == Rows(header.id, old(db.nextDetailId), drafts)
      && SumSubtotals(DetailsOf(db.details, header.id)) == Total(drafts)
      && r == Response(201, Envelope(201, "Transaction created successfully", TransactionRecord(header)))
  {
    // What the rollback restores.
    var savedTransactions, savedDetails := db.transactions, db.details;
    ghost var firstDetailId := db.nextDetailId;

    if !userId.Int? {
      // The schema refuses the header.
      return Failure;
    }
    var header := Transaction(db.nextTransactionId, userId.n, totalAmount);
    db.nextTransactionId := db.nextTransactionId + 1;
    assert TransactionsKeyed(db.transactions, db.nextTransactionId);
    assert DetailsBelow(db.details, db.nextDetailId, db.nextTransactionId);
    if userId.n !in db.users {
      // The foreign key refuses the header.
      return Failure;
    }
    db.transactions := db.transactions[header.id := header];
    var inserted := InsertDetails(db, header.id, drafts);

    if inserted < |drafts| || fault == FailsAtCommit {
      // The rollback undoes the header and detail inserts only.
      db.transactions, db.details := savedTransactions, savedDetails;
      return Failure;
    }
    assert Committed(db.users, userId, drafts, fault);
    assert drafts[..inserted] == drafts;
    PostedRows(savedDetails, header.id, firstDetailId, drafts);
    r := Response(201, Envelope(201, "Transaction created successfully", TransactionRecord(header)));
  }

  /** The first loop of `store`: for each line in order, re-read the product,
      add `price * quantity` to the total, record a draft and patch the
      stock, stopping at the first line that throws. */
  method PatchStock(db: Db, lines: seq<Line>, fault: Fault) returns (drafts: seq<Draft>, totalAmount: int, stop: Option<nat>)
    requires ProductsKeyed(db.products, db.nextProductId)
    modifies db`products
    ensures ProductsKeyed(db.products, db.nextProductId)
    ensures stop == StopLine(old(db.products), lines, fault)
    ensures stop.Some? ==> db.products == ApplyLines(old(db.products), lines[..stop.value])
    ensures stop.None? ==> db.products == ApplyLines(old(db.products), lines)
    ensures stop.None? ==> drafts == Drafts(old(db.products), lines) && totalAmount == Total(drafts)
  {
    ghost var products0 := db.products;
    totalAmount := 0;
    drafts := [];
    var i := 0;
    while i < |lines|
      invariant 0 <= i <= |lines|
      invariant AllFound(products0, lines[..i]) && (fault.FailsAtLine? ==> fault.index >= i)
      invariant db.products == ApplyLines(products0, lines[..i])
      invariant drafts == Drafts(products0, lines[..i]) && totalAmount == Total(drafts)
    {
      assert db.products.Keys == products0.Keys by {
        ApplyLinesEffect(products0, lines[..i]);
      }
      var line := lines[i];
      if line.productId !in db.products || fault == FailsAtLine(i) {
        stop := Some(i);
        StopLineAt(products0, lines, fault, i);
        ApplyLinesKeepsKeyed(products0, db.nextProductId, lines[..i]);
        return;
      }
      PostingStep(products0, lines, i, db.products, drafts, totalAmount);
      var subtotal := PatchLine(db, line);
      totalAmount := totalAmount + subtotal;
      drafts := drafts + [Draft(line.productId, line.quantity, subtotal, line.quoted)];
      i := i + 1;
    }
    stop := None;
    assert lines[..i] == lines;
    StopLineNone(products0, lines, fault);
    ApplyLinesKeepsKeyed(products0, db.nextProductId, lines);
  }

  /** One turn's storage calls: re-read the line's product, then patch that
      row (`.where("id", product.id)`) to its stock less the quantity. The
      subtotal uses the price just read. */
  method PatchLine(db: Db, line: Line) returns (subtotal: int)
    requires line.productId in db.products
    modifies db`products
    ensures subtotal == old(db.products)[line.productId].price * line.quantity
    ensures db.products == ApplyLine(old(db.products), line)
  {
    var product := db.products[line.productId];
    subtotal := product.price * line.quantity;
    db.products := db.products[line.productId := product.(stock := product.stock - line.quantity)];
  }

  /** The second loop of `store`: one detail row per draft, in order, each
      pointing at the header, until the schema refuses a quoted draft. */
  method InsertDetails(db: Db, transactionId: int, drafts: seq<Draft>) returns (inserted: nat)
    requires DetailsBelow(db.details, db.nextDetailId, db.nextTransactionId) && transactionId < db.nextTransactionId
    modifies db`details, db`nextDetailId
    ensures DetailsBelow(db.details, db.nextDetailId, db.nextTransactionId)
    ensures inserted == Accepted(drafts)
    ensures db.details == old(db.details) + Rows(transactionId, old(db.nextDetailId), drafts[..inserted])
    ensures db.nextDetailId == old(db.nextDetailId) + inserted
  {
    inserted := 0;
    while inserted < |drafts| && !drafts[inserted].quoted
      invariant inserted <= Accepted(drafts)
      invariant db.details == old(db.details) + Rows(transactionId, old(db.nextDetailId), drafts[..inserted])
      invariant db.nextDetailId == old(db.nextDetailId) + inserted
      invariant DetailsBelow(db.details, db.nextDetailId, db.nextTransactionId)
    {
      var draft := drafts[inserted];
      db.details := db.details + [Detail(db.nextDetailId, transactionId, draft.productId, draft.quantity, draft.subtotal)];
      db.nextDetailId := db.nextDetailId + 1;
      assert Rows(transactionId, old(db.nextDetailId), drafts[..inserted + 1])
          == Rows(transactionId, old(db.nextDetailId), drafts[..inserted]) + [Detail(old(db.nextDetailId) + inserted, transactionId, draft.productId, draft.quantity, draft.subtotal)];
      inserted := inserted + 1;
    }
  }

  /** `show`: the header with the given id and its detail rows; a missing id
      leaves `data` out. */
  method Show(db: Db, id: int, fails: bool) returns (r: Response)
    ensures fails ==> r == Failure
    ensures !fails && id in db.transactions ==>
      r == Response(200, Envelope(200, "Ok!", TransactionWithDetails(db.transactions[id], DetailsOf(db.details, id))))
    ensures !fails && id !in db.transactions ==> r == Response(200, Envelope(200, "Ok!", Absent))
  {
    if fails {
      return Failure;
    }
    var data := if id in db.transactions then TransactionWithDetails(db.transactions[id], DetailsOf(db.details, id)) else Absent;
    r := Response(200, Envelope(200, "Ok!", data));
  }

  /** `destroy`: removes the header with the given id and, through the
      foreign key's cascade, its detail rows; answers with the number of
      headers deleted. */
  method Destroy(db: Db, id: int, fails: bool) returns (r: Response)
    requires db.Valid()
    modifies db`transactions, db`details
    ensures db.Valid()
    ensures fails ==> db.transactions == old(db.transactions) && db.details == old(db.details) && r == Failure
    ensures !fails ==>
      && db.transactions == old(db.transactions) - {id}
      && db.details == DetailsKept(old(db.details), {id}, {})
      && r == Response(200, Envelope(200, "Success delete transaction",
                                     DeletedCount(if id in old(db.transactions) then 1 else 0)))
  {
    if fails {
      return Failure;
    }
    var count := if id in db.transactions then 1 else 0;
    db.transactions := db.transactions - {id};
    db.details := DetailsKept(db.details, {id}, {});
    r := Response(200, Envelope(200, "Success delete transaction", DeletedCount(count)));
  }

  /** After a delete, `show` of the same id would find no detail rows, and
      every other transaction keeps all of its own. */
  lemma DestroyedHasNoDetails(details: seq<Detail>, id: int, other: int)
    requires other != id
    ensures DetailsOf(DetailsKept(details, {id}, {}), id) == []
    ensures DetailsOf(DetailsKept(details, {id}, {}), other) == DetailsOf(details, other)
  {
    DetailsOfNone(DetailsKept(details, {id}, {}), id);
    DetailsOfKeptOther(details, id, other);
  }

  lemma {:induction false} DetailsOfKeptOther(details: seq<Detail>, id: int, other: int)
    requires other != id
    ensures DetailsOf(DetailsKept(details, {id}, {}), other) == DetailsOf(details, other)
    decreases |details|
  {
    if details != [] {
      var head := details[0];
      var kept := if head.transactionId == id then [] else [head];
      assert DetailsKept(details, {id}, {}) == kept + DetailsKept(details[1..], {id}, {});
      assert details == [head] + details[1..];
      assert Init([head]) == [];
      DetailsOfAppend(kept, DetailsKept(details[1..], {id}, {}), other);
      DetailsOfAppend([head], details[1..], other);
      DetailsOfKeptOther(details[1..], id, other);
    }
  }
}
