/**
 * Worked runs of the job and of `process`: some on a store holding one freshly
 * uploaded invoice whose document reference is `doc-1`, the others on any store
 * that meets their preconditions.
 */
module Scenarios {
  import opened Wrappers
  import opened Json
  import opened Schema
  import opened Processing
  import opened Job
  import opened Rollback

  const InvoiceId: Id := "inv-1"

  function Uploaded1(): Db
  {
    Db(map[InvoiceId := NewInvoice("acct-1", None, Some("doc-1"), None)], map[InvoiceId := []], map[])
  }

  function WidgetItem(): JsonVal
  {
    JObj(map[
      "Description" := JStr("Widget"),
      "Quantity" := JNum(Decimal(2, 0)),
      "Unit Price" := JNum(Decimal(5000, 2)),
      "Total" := JNum(Decimal(10000, 2)),
      "SKU" := JStr("W1")])
  }

  /** The decoded reply of the first scenario: 100.00 USD from Acme, one widget line. */
  function AcmeReply(): map<string, JsonVal>
  {
    map[
      "Vendor Name" := JStr("Acme"),
      "Invoice Number" := JStr("INV-1"),
      "Total Amount" := JNum(Decimal(10000, 2)),
      "Currency" := JStr("USD"),
      "Line Items" := JArr([WidgetItem()])]
  }

  lemma Pow10Facts()
    ensures Pow10(3) == 1000 && Pow10(10) >= 1000000 && Pow10(12) >= 1000000
  {
    assert Pow10(3) == 1000;
    Pow10Add(3, 3);
    Pow10Add(6, 4);
    Pow10Add(6, 6);
  }

  lemma StartsValid()
    ensures Valid(Uploaded1()) && AttemptsRecorded(Uploaded1()) && PassesGuard(Uploaded1(), InvoiceId)
  {
    NewInvoiceFits("acct-1", None, Some("doc-1"), None);
  }

  const WidgetLine: Line := Line(Some("Widget"), Some(2000), Some(5000), Some(10000), Some("W1"))

  lemma WidgetConverts()
    ensures LineOf(WidgetItem()) == Ok(WidgetLine) && LineFits(WidgetLine)
  {
    Pow10Facts();
    LineFromObject(WidgetItem().fields);
  }

  lemma AcmeFields()
    ensures var data := AcmeReply();
      && Get(data, "Vendor Name") == JStr("Acme")
      && Get(data, "Invoice Number") == JStr("INV-1")
      && Get(data, "Invoice Date") == JNull
      && Get(data, "Due Date") == JNull
      && Get(data, "Total Amount") == JNum(Decimal(10000, 2))
      && Get(data, "Currency") == JStr("USD")
      && Get(data, "Line Items") == JArr([WidgetItem()])
  {
  }

  lemma AcmeAccepted(db: Db, id: Id)
    requires id !in db.extractions
    ensures WriteBackAccepted(db, id, AcmeReply(), 120, NoFault)
    ensures ParsedLines(ItemsOf(Get(AcmeReply(), "Line Items")).value) == [WidgetLine]
  {
    AcmeFields();
    WidgetConverts();
    Pow10Facts();
    var items := [WidgetItem()];
    assert LinesAccepted(items, 1, NoFault);
  }

  /**
   * A well-formed reply for an invoice with no lines yet: the invoice is
   * `extracted` with vendor, number, total and currency from the reply, one line
   * (Widget, quantity 2.000, total 100.00), and one completed extraction; the call
   * returns normally.
   */
  lemma ScenarioSuccess(db: Db, id: Id, now: Time)
    requires Ready(db, id) && PassesGuard(db, id) && id !in db.extractions && db.lines[id] == []
    ensures var (db', o) := Perform(db, id, now, Obj(AcmeReply()), 120, NoFault);
      && o == Returned
      && id in db'.invoices && id in db'.lines && id in db'.extractions
      && db'.invoices[id].status == Extracted
      && db'.invoices[id].vendorName == Some("Acme")
      && db'.invoices[id].invoiceNumber == Some("INV-1")
      && db'.invoices[id].totalAmount == Some(10000)
      && db'.invoices[id].currency == Some("USD")
      && db'.invoices[id].dueDate == None
      && db'.lines[id] == [WidgetLine]
      && db'.extractions[id].status == Completed
      && db'.extractions[id].confidence == Some(95)
  {
    AcmeFields();
    AcmeAccepted(db, id);
    ProcessSucceeds(db, id, now, AcmeReply(), 120, NoFault);
  }

  /** The model call times out: status `error`, the timeout in notes, one failed extraction, the error re-raised. */
  lemma ScenarioTimeout(now: Time)
    ensures var (db, o) := Perform(Uploaded1(), InvoiceId, now, Raise("Net::ReadTimeout"), 30000, NoFault);
      && o == Raised(ClientError("Net::ReadTimeout"))
      && db.invoices[InvoiceId].status == Error
      && db.invoices[InvoiceId].notes == Some("Net::ReadTimeout")
      && db.extractions[InvoiceId] == FailedRecord("Net::ReadTimeout")
      && db.extractions[InvoiceId].errorMessage.Some?
      && db.lines[InvoiceId] == []
  {
    StartsValid();
    ProcessFailsOnError(Uploaded1(), InvoiceId, now, Raise("Net::ReadTimeout"), 30000, NoFault);
  }

  /** The content is not JSON: status `error`, a failed extraction, no lines. */
  lemma ScenarioNotJson(now: Time)
    ensures var (db, o) := Perform(Uploaded1(), InvoiceId, now, BadJson("unexpected token at 'not json'"), 80, NoFault);
      && o.Raised? && o.error.ParseError?
      && db.invoices[InvoiceId].status == Error
      && db.extractions[InvoiceId].status == Failed
      && db.lines[InvoiceId] == []
  {
    StartsValid();
    ProcessFailsOnError(Uploaded1(), InvoiceId, now, BadJson("unexpected token at 'not json'"), 80, NoFault);
  }

  /**
   * Once extracted, the job leaves the invoice alone whatever it is delivered with:
   * no new extraction, status unchanged, no model call.
   */
  lemma ScenarioAlreadyExtracted(db: Db, id: Id, now: Time, reply: Reply, durationMs: nat)
    requires id in db.invoices && db.invoices[id].status == Extracted
    ensures Perform(db, id, now, reply, durationMs, NoFault) == (db, Returned)
    ensures Requests(db, id) == []
  {
  }

  /**
   * `process` itself has no such guard: run again on an invoice that already has
   * its extraction row, it rolls its transaction back, sets `error` and raises.
   */
  lemma ScenarioProcessAgain(db: Db, id: Id, now: Time, durationMs: nat)
    requires Valid(db) && id in db.extractions
    ensures var (db', o) := Process(db, id, now, Obj(AcmeReply()), durationMs, NoFault);
      && o == Raised(RecordNotUnique)
      && db'.invoices[id].status == Error
      && db'.extractions == db.extractions
      && db'.lines == db.lines
  {
    ValidReady(db, id);
    ProcessRollsBack(db, id, now, AcmeReply(), durationMs, NoFault);
  }

  lemma AcmeReaches(db1: Db, id: Id)
    requires id in db1.invoices && InvoiceFits(db1.invoices[id])
    ensures ReachesExtraction(db1, id, AcmeReply(), NoFault)
  {
    AcmeFields();
    WidgetConverts();
    Pow10Facts();
    assert LinesAccepted([WidgetItem()], 1, NoFault);
  }

  /**
   * The same run as written: the rescue's save retries the cached extraction and
   * is refused again, so the invoice is left `extracting` with no error note.
   */
  lemma ScenarioProcessAgainAsWritten(db: Db, id: Id, now: Time, durationMs: nat)
    requires Valid(db) && id in db.extractions
    ensures var (db', o) := ProcessAsWritten(db, id, now, Obj(AcmeReply()), durationMs, NoFault);
      && o == Raised(if durationMs <= Int4Max then RecordNotUnique else IntegerOutOfRange)
      && db'.invoices[id].status == Extracting
      && db'.invoices[id].notes == db.invoices[id].notes
      && db'.extractions == db.extractions
      && db'.lines == db.lines
  {
    ValidReady(db, id);
    AcmeReaches(Begin(db, id, now), id);
    RefusedExtractionStaysExtracting(db, id, now, AcmeReply(), durationMs, NoFault);
  }

  /** Two line items, the second a bare number, which cannot be indexed by a key. */
  function BadItems(): seq<JsonVal>
  {
    [WidgetItem(), JNum(Decimal(5, 0))]
  }

  /** A reply with those items and nothing else. */
  function BadSecondItem(): map<string, JsonVal>
  {
    map["Line Items" := JArr(BadItems())]
  }

  /** The loop over those items writes the widget line, then the number raises. */
  lemma BadItemsFacts()
    ensures ItemsOf(Get(BadSecondItem(), "Line Items")) == Ok(BadItems())
    ensures Get(BadSecondItem(), "Total Amount") == JNull
    ensures !LinesAccepted(BadItems(), 1, NoFault)
    ensures WrittenLines(BadItems(), 1, NoFault) == [WidgetLine]
    ensures LineAccepted(BadItems()[0]) && LineOf(BadItems()[0]) == Ok(WidgetLine)
    ensures BadItems()[1..] == [JNum(Decimal(5, 0))]
  {
    var items := BadItems();
    WidgetConverts();
    LineFromScalar(items, 1, 1, NoFault);
    assert items[1..] == [JNum(Decimal(5, 0))];
  }

  /** What the transaction makes of that reply: it raises at the second item. */
  lemma BadSecondItemFacts(db1: Db, id: Id, durationMs: nat)
    requires Ready(db1, id)
    ensures WriteBack(db1, id, BadSecondItem(), durationMs, NoFault) == Err(NotIndexable)
  {
    var data := BadSecondItem();
    var items := BadItems();
    BadItemsFacts();
    var inv := WithExtractedFields(db1.invoices[id], data);
    assert InvoiceFits(inv);
    var db2 := UpdateInvoice(db1, id, inv).value;
    InsertLinesStep(db2, id, items, 1, NoFault);
    var db3 := CreateLine(db2, id, WidgetLine).value;
    assert InsertLines(db3, id, items[1..], 2, NoFault) == Err(NotIndexable);
  }

  /** That reply for an invoice without lines or extraction: `process` ends in `error` with no line and a failed extraction. */
  lemma ScenarioLineRefused(db: Db, id: Id, now: Time)
    requires Ready(db, id) && id !in db.extractions && db.lines[id] == []
    ensures var (db', o) := Process(db, id, now, Obj(BadSecondItem()), 40, NoFault);
      && o == Raised(NotIndexable)
      && db'.invoices[id].status == Error
      && LinesOf(db', id) == []
      && id in db'.extractions && db'.extractions[id] == FailedRecord(Message(NotIndexable))
  {
    var db1 := Begin(db, id, now);
    BadSecondItemFacts(db1, id, 40);
    ProcessBranches(db, id, now, Obj(BadSecondItem()), 40, NoFault);
    RescueSpec(db1, id, NotIndexable);
  }

  /** The same run as written: the rescue inserts again the widget line that the rolled-back loop had written. */
  lemma ScenarioLineRefusedAsWritten(db: Db, id: Id, now: Time)
    requires Ready(db, id) && id !in db.extractions && db.lines[id] == []
    ensures var (db', o) := ProcessAsWritten(db, id, now, Obj(BadSecondItem()), 40, NoFault);
      && o == Raised(NotIndexable)
      && db'.invoices[id].status == Error
      && LinesOf(db', id) == [WidgetLine]
      && id in db'.extractions && db'.extractions[id] == FailedRecord(Message(NotIndexable))
  {
    BadItemsFacts();
    BadSecondItemFacts(Begin(db, id, now), id, 40);
    RescueKeepsExtractedFields(db, id, now, BadSecondItem(), 40, NoFault);
    assert db.lines[id] + [WidgetLine] == [WidgetLine];
  }

  /** The three store-level scenarios on the freshly uploaded `doc-1` invoice. */
  lemma ScenariosOnUpload(now: Time, now2: Time, reply: Reply)
    ensures var (db, o) := Perform(Uploaded1(), InvoiceId, now, Obj(AcmeReply()), 120, NoFault);
      && o == Returned
      && db.lines[InvoiceId] == [WidgetLine]
      && Perform(db, InvoiceId, now2, reply, 50, NoFault) == (db, Returned)
  {
    StartsValid();
    ValidReady(Uploaded1(), InvoiceId);
    ScenarioSuccess(Uploaded1(), InvoiceId, now);
  }
}
