/** What posting a sale does to the tables, as functions of the requested
    lines and the tables before the call, with the properties the sale
    controller relies on. */
module Posting {
  import opened Records
  import TransactionValidator
  import Database

  /** One entry of the in-memory detail list built before anything is
      inserted. `quoted` carries over from the line: its `product_id` or
      `quantity` is still the digit string the request sent. */
  datatype Draft = Draft(productId: int, quantity: int, subtotal: int, quoted: bool)

  /** Where a storage call made while posting throws. `FailsAtLine(k)`: the
      product read or the stock patch for line `k`. `FailsAtCommit`: the
      commit of the database transaction, after every insert went through. */
  datatype Fault = NoFault | FailsAtLine(index: nat) | FailsAtCommit

  function Init<T>(s: seq<T>): seq<T>
    requires |s| > 0
  {
    s[..|s| - 1]
  }

  function Last<T>(s: seq<T>): T
    requires |s| > 0
  {
    s[|s| - 1]
  }

  /** The stock patch issued for one line: the product as read at that point
      loses `quantity` units; nothing else about it changes. */
  function ApplyLine(products: map<int, Product>, l: Line): map<int, Product> {
    if l.productId in products then
      products[l.productId := products[l.productId].(stock := products[l.productId].stock - l.quantity)]
    else products
  }

  /** The products table after the patches for `lines`, issued in order, each
      against the table as the earlier patches left it. */
  function ApplyLines(products: map<int, Product>, lines: seq<Line>): map<int, Product>
    decreases |lines|
  {
    if lines == [] then products else ApplyLine(ApplyLines(products, Init(lines)), Last(lines))
  }

  /** The total quantity requested of product `id` over all lines. */
  function QuantityFor(lines: seq<Line>, id: int): int
    decreases |lines|
  {
    if lines == [] then 0
    else QuantityFor(Init(lines), id) + (if Last(lines).productId == id then Last(lines).quantity else 0)
  }

  /** Each product loses the sum of the quantities of every line naming it,
      duplicates included, and keeps everything else; no product appears or
      disappears. */
  lemma {:induction false} ApplyLinesEffect(products: map<int, Product>, lines: seq<Line>)
    ensures ApplyLines(products, lines).Keys == products.Keys
    ensures forall id :: id in products ==>
              ApplyLines(products, lines)[id] == products[id].(stock := products[id].stock - QuantityFor(lines, id))
    decreases |lines|
  {
    if lines != [] {
      ApplyLinesEffect(products, Init(lines));
    }
  }

  /** Stock patches keep every product under its own id. */
  lemma ApplyLinesKeepsKeyed(products: map<int, Product>, next: int, lines: seq<Line>)
    requires Database.ProductsKeyed(products, next)
    ensures Database.ProductsKeyed(ApplyLines(products, lines), next)
  {
    ApplyLinesEffect(products, lines);
  }

  lemma {:induction false} QuantityForUnnamed(lines: seq<Line>, id: int)
    requires forall i :: 0 <= i < |lines| ==> lines[i].productId != id
    ensures QuantityFor(lines, id) == 0
    decreases |lines|
  {
    if lines != [] {
      QuantityForUnnamed(Init(lines), id);
    }
  }

  /** A product no line names keeps its row unchanged. */
  lemma UnnamedProductUnchanged(products: map<int, Product>, lines: seq<Line>, id: int)
    requires id in products
    requires forall i :: 0 <= i < |lines| ==> lines[i].productId != id
    ensures id in ApplyLines(products, lines) && ApplyLines(products, lines)[id] == products[id]
  {
    ApplyLinesEffect(products, lines);
    QuantityForUnnamed(lines, id);
  }

  predicate AllFound(products: map<int, Product>, lines: seq<Line>) {
    forall i :: 0 <= i < |lines| ==> lines[i].productId in products
  }

  /** The detail list the loop builds: one entry per line, in order. The
      patches never touch a price, so the price the loop re-reads for a line
      is the stored one (`PostingStep` shows this). */
  function Drafts(products: map<int, Product>, lines: seq<Line>): (r: seq<Draft>)
    requires AllFound(products, lines)
    ensures |r| == |lines|
    decreases |lines|
  {
    if lines == [] then []
    else
      var l := Last(lines);
      Drafts(products, Init(lines)) + [Draft(l.productId, l.quantity, products[l.productId].price * l.quantity, l.quoted)]
  }

  /** Draft `j` is line `j` with its subtotal: the stored price times the
      quantity. */
  lemma {:induction false} DraftsAt(products: map<int, Product>, lines: seq<Line>, j: nat)
    requires AllFound(products, lines) && j < |lines|
    ensures Drafts(products, lines)[j] ==
              Draft(lines[j].productId, lines[j].quantity, products[lines[j].productId].price * lines[j].quantity, lines[j].quoted)
    decreases |lines|
  {
    if j < |lines| - 1 {
      DraftsAt(products, Init(lines), j);
    }
  }

  /** One turn of the posting loop: patching the product re-read for line
      `i` and recording its draft extends `ApplyLines`, `Drafts` and `Total`
      by that line. */
  lemma PostingStep(products: map<int, Product>, lines: seq<Line>, i: nat,
                    current: map<int, Product>, drafts: seq<Draft>, total: int)
    requires i < |lines| && AllFound(products, lines[..i]) && lines[i].productId in products
    requires current == ApplyLines(products, lines[..i])
    requires drafts == Drafts(products, lines[..i]) && total == Total(drafts)
    ensures lines[i].productId in current
    ensures AllFound(products, lines[..i + 1])
    ensures ApplyLine(current, lines[i]) == ApplyLines(products, lines[..i + 1])
    ensures var d := Draft(lines[i].productId, lines[i].quantity, current[lines[i].productId].price * lines[i].quantity, lines[i].quoted);
      && drafts + [d] == Drafts(products, lines[..i + 1])
      && total + d.subtotal == Total(drafts + [d])
  {
    assert Init(lines[..i + 1]) == lines[..i] && Last(lines[..i + 1]) == lines[i];
    var id := lines[i].productId;
    assert id in current && current[id].price == products[id].price by {
      ApplyLinesEffect(products, lines[..i]);
    }
    assert AllFound(products, lines[..i + 1]) by {
      assert forall j :: 0 <= j < i ==> lines[..i][j] == lines[j];
    }
    var d := Draft(id, lines[i].quantity, current[id].price * lines[i].quantity, lines[i].quoted);
    assert Init(drafts + [d]) == drafts && Last(drafts + [d]) == d;
  }

  /** The running `totalAmount`: the sum of the drafts' subtotals. */
  function Total(drafts: seq<Draft>): int
    decreases |drafts|
  {
    if drafts == [] then 0 else Total(Init(drafts)) + Last(drafts).subtotal
  }

  /** The detail rows inserted for a header: draft `j` becomes the row with
      id `firstId + j`, pointing at the header. */
  function Rows(transactionId: int, firstId: int, drafts: seq<Draft>): (r: seq<Detail>)
    ensures |r| == |drafts|
  {
    seq(|drafts|, j requires 0 <= j < |drafts| =>
      Detail(firstId + j, transactionId, drafts[j].productId, drafts[j].quantity, drafts[j].subtotal))
  }

  /** The detail rows of one header, in table order: what the `details`
      relation fetches. */
  function DetailsOf(details: seq<Detail>, transactionId: int): (r: seq<Detail>)
    ensures forall i :: 0 <= i < |r| ==> r[i].transactionId == transactionId
    decreases |details|
  {
    if details == [] then []
    else DetailsOf(Init(details), transactionId) + (if Last(details).transactionId == transactionId then [Last(details)] else [])
  }

  function SumSubtotals(details: seq<Detail>): int
    decreases |details|
  {
    if details == [] then 0 else SumSubtotals(Init(details)) + Last(details).subtotal
  }

  lemma {:induction false} DetailsOfAppend(a: seq<Detail>, b: seq<Detail>, transactionId: int)
    ensures DetailsOf(a + b, transactionId) == DetailsOf(a, transactionId) + DetailsOf(b, transactionId)
    decreases |b|
  {
    if b == [] {
      assert a + b == a;
    } else {
      assert Init(a + b) == a + Init(b);
      assert Last(a + b) == Last(b);
      DetailsOfAppend(a, Init(b), transactionId);
    }
  }

  lemma {:induction false} DetailsOfNone(details: seq<Detail>, transactionId: int)
    requires forall i :: 0 <= i < |details| ==> details[i].transactionId != transactionId
    ensures DetailsOf(details, transactionId) == []
    decreases |details|
  {
    if details != [] {
      DetailsOfNone(Init(details), transactionId);
    }
  }

  lemma {:induction false} DetailsOfAll(details: seq<Detail>, transactionId: int)
    requires forall i :: 0 <= i < |details| ==> details[i].transactionId == transactionId
    ensures DetailsOf(details, transactionId) == details
    decreases |details|
  {
    if details != [] {
      DetailsOfAll(Init(details), transactionId);
    }
  }

  lemma {:induction false} RowsTotal(transactionId: int, firstId: int, drafts: seq<Draft>)
    ensures SumSubtotals(Rows(transactionId, firstId, drafts)) == Total(drafts)
    decreases |drafts|
  {
    if drafts != [] {
      assert Init(Rows(transactionId, firstId, drafts)) == Rows(transactionId, firstId, Init(drafts));
      RowsTotal(transactionId, firstId, Init(drafts));
    }
  }

  /** When a header id is fresh, the rows fetched for it are exactly the rows
      inserted for it, and their subtotals add up to the header's total. */
  lemma PostedRows(before: seq<Detail>, transactionId: int, firstId: int, drafts: seq<Draft>)
    requires forall i :: 0 <= i < |before| ==> before[i].transactionId != transactionId
    ensures DetailsOf(before + Rows(transactionId, firstId, drafts), transactionId) == Rows(transactionId, firstId, drafts)
    ensures SumSubtotals(DetailsOf(before + Rows(transactionId, firstId, drafts), transactionId)) == Total(drafts)
  {
    DetailsOfAppend(before, Rows(transactionId, firstId, drafts), transactionId);
    DetailsOfNone(before, transactionId);
    DetailsOfAll(Rows(transactionId, firstId, drafts), transactionId);
    RowsTotal(transactionId, firstId, drafts);
  }

  /** The line at which the posting loop throws, if any: the first line whose
      product is missing (reading `price` of an absent row) or whose read or
      patch fails. Later lines are never reached. */
  function StopLine(products: map<int, Product>, lines: seq<Line>, fault: Fault): (r: Option<nat>)
    ensures r.None? <==> forall i :: 0 <= i < |lines| ==> lines[i].productId in products && fault != FailsAtLine(i)
    ensures r.Some? ==> r.value < |lines| && (lines[r.value].productId !in products || fault == FailsAtLine(r.value))
    ensures r.Some? ==> forall i :: 0 <= i < r.value ==> lines[i].productId in products && fault != FailsAtLine(i)
    decreases |lines|
  {
    if lines == [] then None
    else
      var r := StopLine(products, Init(lines), fault);
      if r.Some? then r
      else if Last(lines).productId !in products || fault == FailsAtLine(|lines| - 1) then Some(|lines| - 1)
      else None
  }

  /** The loop, having read and patched every line before `k`, throws at
      line `k`. */
  lemma StopLineAt(products: map<int, Product>, lines: seq<Line>, fault: Fault, k: nat)
    requires k < |lines| && AllFound(products, lines[..k]) && (fault.FailsAtLine? ==> fault.index >= k)
    requires lines[k].productId !in products || fault == FailsAtLine(k)
    ensures StopLine(products, lines, fault) == Some(k)
  {
    assert forall i :: 0 <= i < k ==> lines[..k][i] == lines[i];
  }

  /** The loop, having read and patched every line, does not throw. */
  lemma StopLineNone(products: map<int, Product>, lines: seq<Line>, fault: Fault)
    requires AllFound(products, lines) && (fault.FailsAtLine? ==> fault.index >= |lines|)
    ensures StopLine(products, lines, fault) == None
  {
  }

  /** How many detail rows the insert loop gets through: the drafts before
      the first quoted one. The model's schema wants integers for
      `product_id` and `quantity`, so a quoted draft is refused before any
      SQL runs, and the loop throws there. */
  function Accepted(drafts: seq<Draft>): (k: nat)
    ensures k <= |drafts|
    ensures forall j :: 0 <= j < k ==> !drafts[j].quoted
    ensures k < |drafts| ==> drafts[k].quoted
    decreases |drafts|
  {
    if drafts == [] || drafts[0].quoted then 0 else 1 + Accepted(drafts[1..])
  }

  /** The database transaction commits: `user_id` is a JSON integer (the
      model's schema refuses anything else, a digit string included) naming
      a user (the foreign key), every detail row is accepted, and the commit
      itself does not fail. */
  predicate Committed(users: map<int, User>, userId: Value, drafts: seq<Draft>, fault: Fault) {
    userId.Int? && userId.n in users && Accepted(drafts) == |drafts| && fault != FailsAtCommit
  }

  /** Validation does not add up lines that name the same product: two lines
      that each fit the stored stock pass together, and posting them drives
      the stock below zero. */
  lemma ValidationAdmitsOversell(products: map<int, Product>, id: int, quantity: int)
    requires id in products && 0 < quantity <= products[id].stock < 2 * quantity
    ensures TransactionValidator.ProductsErrors(products, [Line(id, quantity, false), Line(id, quantity, false)]) == []
    ensures id in ApplyLines(products, [Line(id, quantity, false), Line(id, quantity, false)])
    ensures ApplyLines(products, [Line(id, quantity, false), Line(id, quantity, false)])[id].stock == products[id].stock - 2 * quantity < 0
  {
    var lines := [Line(id, quantity, false), Line(id, quantity, false)];
    ApplyLinesEffect(products, lines);
    assert Init(lines) == [Line(id, quantity, false)];
    assert Init(Init(lines)) == [];
    assert QuantityFor(Init(lines), id) == quantity;
  }

  lemma {:induction false} QuantityForDistinct(lines: seq<Line>, k: nat)
    requires k < |lines|
    requires forall i, j :: 0 <= i < j < |lines| ==> lines[i].productId != lines[j].productId
    ensures QuantityFor(lines, lines[k].productId) == lines[k].quantity
    decreases |lines|
  {
    if k == |lines| - 1 {
      QuantityForUnnamed(Init(lines), lines[k].productId);
    } else {
      QuantityForDistinct(Init(lines), k);
    }
  }

  /** When every line names a different product, passing validation is
      enough: no product named in the sale ends with negative stock. */
  lemma ValidatedDistinctLinesKeepStock(products: map<int, Product>, lines: seq<Line>)
    requires TransactionValidator.ProductsErrors(products, lines) == []
    requires forall i, j :: 0 <= i < j < |lines| ==> lines[i].productId != lines[j].productId
    ensures forall i :: 0 <= i < |lines| ==>
              lines[i].productId in ApplyLines(products, lines) && ApplyLines(products, lines)[lines[i].productId].stock >= 0
  {
    ApplyLinesEffect(products, lines);
    forall i | 0 <= i < |lines|
      ensures lines[i].productId in ApplyLines(products, lines) && ApplyLines(products, lines)[lines[i].productId].stock >= 0
    {
      assert TransactionValidator.LineOk(products, lines[i]);
      QuantityForDistinct(lines, i);
    }
  }

  /** A request that passed its validator and sent its integers as JSON
      integers, with no storage fault, runs the loop to the end and commits. */
  lemma ValidatedPostingCommits(users: map<int, User>, products: map<int, Product>, userId: Value, lines: seq<Line>)
    requires TransactionValidator.Store(users, products, userId, lines) == []
    requires userId.Int? && forall i :: 0 <= i < |lines| ==> !lines[i].quoted
    ensures StopLine(products, lines, NoFault) == None
    ensures Committed(users, userId, Drafts(products, lines), NoFault)
  {
    assert forall i :: 0 <= i < |lines| ==> lines[i].productId in products && NoFault != FailsAtLine(i);
    var k := Accepted(Drafts(products, lines));
    if k < |lines| {
      DraftsAt(products, lines, k);
    }
  }

  /** The validator reads a digit string as the integer it spells, the
      schema does not: a buyer id or a line sent quoted passes validation,
      yet the sale is rolled back. */
  lemma ValidationAdmitsQuoted(users: map<int, User>, products: map<int, Product>, userId: int, lines: seq<Line>)
    requires TransactionValidator.Store(users, products, Int(userId), lines) == []
    ensures TransactionValidator.Store(users, products, QuotedInt(userId), lines) == []
    ensures !Committed(users, QuotedInt(userId), Drafts(products, lines), NoFault)
    ensures var quoted := lines[0 := lines[0].(quoted := true)];
      && TransactionValidator.Store(users, products, Int(userId), quoted) == []
      && !Committed(users, Int(userId), Drafts(products, quoted), NoFault)
  {
    var quoted := lines[0 := lines[0].(quoted := true)];
    assert forall i :: 0 <= i < |quoted| ==> quoted[i].productId == lines[i].productId && quoted[i].quantity == lines[i].quantity;
    DraftsAt(products, quoted, 0);
  }
}
