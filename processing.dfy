/**
 * InvoiceProcessor#process as a function of the store before the call, the
 * model service's reply, the measured duration and the database's refusals;
 * and the properties the pipeline promises, proved of that function. `Process`
 * is the intended behaviour: after a rollback its rescue starts from the rows as
 * stored. The code as written, whose rescue saves what the rollback left in
 * memory, is module `Rollback`.
 */
module Processing {
  import opened Wrappers
  import opened Json
  import opened Schema

  // ---------------------------------------------------------------------------
  // Constants of the request and of the audit record.

  /** The instruction text sent with every request (the heredoc, indentation stripped). */
  const Prompt: string :=
    "Extract the following details from the invoice:\n"
    + "- Vendor Name\n"
    + "- Invoice Number\n"
    + "- Invoice Date (YYYY-MM-DD)\n"
    + "- Due Date (YYYY-MM-DD)\n"
    + "- Total Amount\n"
    + "- Currency\n"
    + "- Line Items (Description, Quantity, Unit Price, Total, SKU)\n"
    + "\n"
    + "Return the response as a valid JSON object.\n"

  const RequestModel: string := "gemini-3-flash-preview"
  const JsonObjectFormat: string := "json_object"
  /** The model id written into a completed extraction (not the one requested). */
  const RecordedModel: string := "gpt-4o-mock"
  /** The placeholder confidence 0.95, in hundredths. */
  const PlaceholderConfidence: int := 95
  const NoResponseMessage: string := "Failed to get response from AI"

  const VendorNameKey: string := "Vendor Name"
  const InvoiceNumberKey: string := "Invoice Number"
  const InvoiceDateKey: string := "Invoice Date"
  const DueDateKey: string := "Due Date"
  const TotalAmountKey: string := "Total Amount"
  const CurrencyKey: string := "Currency"
  const LineItemsKey: string := "Line Items"
  const DescriptionKey: string := "Description"
  const QuantityKey: string := "Quantity"
  const UnitPriceKey: string := "Unit Price"
  const TotalKey: string := "Total"
  const SkuKey: string := "SKU"

  /** One chat request: model, a user message with the prompt and the document URL, JSON-object output. */
  datatype Request = Request(model: string, prompt: string, imageUrl: Option<string>, responseFormat: string)

  function RequestFor(inv: Invoice): Request
  {
    Request(RequestModel, Prompt, inv.fileUrl, JsonObjectFormat)
  }

  /**
   * What the model service and `JSON.parse` give back: the client raised; the
   * reply had no message content; the content was not JSON; or it decoded to an object.
   */
  datatype Reply = Raise(msg: string) | NoContent | BadJson(msg: string) | Obj(data: map<string, JsonVal>)

  /** The database refuses the transaction's write number `step`, or nothing. */
  datatype Fault = NoFault | RefuseWrite(step: nat, msg: string)

  /** `process` returns normally or raises. */
  datatype Outcome = Returned | Raised(error: Error)

  function Refused(f: Fault, step: nat): Option<Error>
  {
    if f.RefuseWrite? && f.step == step then Some(StoreError(f.msg)) else None
  }

  // ---------------------------------------------------------------------------
  // Casting decoded values into typed columns.

  /**
   * The string cast: text as given, `true` and `false` as "t" and "f", an integer
   * as its digits; nil stays NULL. The text form of a fraction, an array or a hash
   * is not modelled and reads as NULL here.
   */
  function CastText(v: JsonVal): Option<string>
  {
    match v
    case JStr(s) => Some(s)
    case JBool(b) => Some(if b then "t" else "f")
    case JNum(d) => if d.exponent == 0 then Some(IntText(d.mantissa)) else None
    case _ => None
  }

  /** Date columns keep the text as given; date parsing is not modelled. */
  function CastDate(v: JsonVal): Option<string>
  {
    if v.JStr? then Some(v.s) else None
  }

  /**
   * The decimal cast, rounded half up to the column's scale: `true` and `false`
   * are 1 and 0, a number is taken as written, a string is read by `String#to_d`,
   * and a non-empty array or hash reads as 0 through its text; nil and the other
   * blank values (a white-space string, an empty array or hash) stay NULL.
   */
  function CastDecimal(v: JsonVal, scale: nat): Option<int>
  {
    match v
    case JNull => None
    case JBool(b) => Some(RoundToScale(Decimal(if b then 1 else 0, 0), scale))
    case JNum(d) => Some(RoundToScale(d, scale))
    case JStr(s) => if Blank(s) then None else Some(RoundToScale(ToD(s), scale))
    case JArr(items) => if items == [] then None else Some(0)
    case JObj(m) => if |m| == 0 then None else Some(0)
  }

  /** The decimal cast gives NULL exactly for the values Ruby calls blank, `false` excepted. */
  lemma CastDecimalNull(v: JsonVal, scale: nat)
    ensures CastDecimal(v, scale).None? <==> BlankValue(v) && v != JBool(false)
  {
  }

  /** A whole number stored as text reads back from that text as the same number. */
  lemma CastTextThenDecimal(m: int, scale: nat)
    ensures CastText(JNum(Decimal(m, 0))).Some?
    ensures CastDecimal(JStr(CastText(JNum(Decimal(m, 0))).value), scale) == CastDecimal(JNum(Decimal(m, 0)), scale)
    ensures CastDecimal(JNum(Decimal(m, 0)), scale) == Some(m * Pow10(scale))
  {
    IntTextRoundTrip(m, []);
    assert IntText(m) + [] == IntText(m);
    var t := IntText(m);
    if m < 0 {
      assert t[1] == Digits(-m)[0];
      assert !IsSpace(t[1]);
    } else {
      assert t[0] == Digits(m)[0];
    }
  }

  /** A non-blank string with no digit in it, a label for instance, reads as 0. */
  lemma CastDecimalOfWords(s: string, scale: nat)
    requires !Blank(s) && forall i :: 0 <= i < |s| ==> !IsDigit(s[i])
    ensures CastDecimal(JStr(s), scale) == Some(0)
  {
    ToDWithoutDigits(s);
  }

  // ---------------------------------------------------------------------------
  // The transaction's writes.

  /** The invoice after the transaction's `update!`: six fields by exact key, the whole map, status `extracted`. */
  function WithExtractedFields(inv: Invoice, data: map<string, JsonVal>): Invoice
  {
    inv.(
      vendorName := CastText(Get(data, VendorNameKey)),
      invoiceNumber := CastText(Get(data, InvoiceNumberKey)),
      invoiceDate := CastDate(Get(data, InvoiceDateKey)),
      dueDate := CastDate(Get(data, DueDateKey)),
      totalAmount := CastDecimal(Get(data, TotalAmountKey), MoneyScale),
      currency := CastText(Get(data, CurrencyKey)),
      extractedData := Some(JObj(data)),
      status := Extracted)
  }

  /**
   * `data['Line Items']&.each`: nil gives no items, an array its elements, an
   * empty hash nothing; a non-empty hash yields [key, value] pairs, and indexing
   * such a pair with a string raises; any other value has no `each`.
   */
  function ItemsOf(v: JsonVal): Result<seq<JsonVal>, Error>
  {
    match v
    case JNull => Ok([])
    case JArr(items) => Ok(items)
    case JObj(m) => if |m| == 0 then Ok([]) else Err(NotIndexable)
    case _ => Err(NotIterable)
  }

  /** `item[key]` on an item that takes a string index: a decoded object or a string. */
  function Index(item: JsonVal, key: string): JsonVal
    requires item.JObj? || item.JStr?
  {
    if item.JObj? then Get(item.fields, key) else StringIndex(item.s, key)
  }

  /** The line built from one item; any item other than an object or a string cannot be indexed. */
  function LineOf(item: JsonVal): Result<Line, Error>
  {
    if !(item.JObj? || item.JStr?) then Err(NotIndexable)
    else Ok(Line(
      CastText(Index(item, DescriptionKey)),
      CastDecimal(Index(item, QuantityKey), QuantityScale),
      CastDecimal(Index(item, UnitPriceKey), MoneyScale),
      CastDecimal(Index(item, TotalKey), MoneyScale),
      CastText(Index(item, SkuKey))))
  }

  /** The extraction row for a successful attempt. */
  function CompletedRecord(data: map<string, JsonVal>, durationMs: nat): Extraction
  {
    PendingExtraction.(
      aiModel := Some(RecordedModel),
      rawPrompt := Some(Prompt),
      rawResponse := Some(JObj(data)),
      status := Completed,
      durationMs := Some(durationMs),
      confidence := Some(PlaceholderConfidence))
  }

  /** The extraction row for a failed attempt: only status and message are set. */
  function FailedRecord(msg: string): Extraction
  {
    PendingExtraction.(status := Failed, errorMessage := Some(msg))
  }

  /** The `each` loop: line number `step` onward, stopping at the first raise. */
  function InsertLines(db: Db, id: Id, items: seq<JsonVal>, step: nat, fault: Fault): (r: Result<Db, Error>)
    requires id in db.invoices
    ensures Valid(db) && r.Ok? ==> Valid(r.value)
    ensures r.Ok? ==> r.value.invoices == db.invoices && r.value.extractions == db.extractions
    decreases |items|
  {
    if items == [] then Ok(db)
    else match LineOf(items[0])
      case Err(e) => Err(e)
      case Ok(l) =>
        if Refused(fault, step).Some? then Err(Refused(fault, step).value)
        else match CreateLine(db, id, l)
          case Err(e) => Err(e)
          case Ok(db') => InsertLines(db', id, items[1..], step + 1, fault)
  }

  /**
   * The body of the transaction, on the store as it was when the transaction began.
   * Writes are numbered 0 (invoice update), 1..n (lines) and n + 1 (extraction).
   * An error here means the transaction rolled back.
   */
  function WriteBack(db: Db, id: Id, data: map<string, JsonVal>, durationMs: nat, fault: Fault): (r: Result<Db, Error>)
    requires id in db.invoices
    ensures Valid(db) && r.Ok? ==> Valid(r.value)
  {
    if Refused(fault, 0).Some? then Err(Refused(fault, 0).value)
    else match UpdateInvoice(db, id, WithExtractedFields(db.invoices[id], data))
      case Err(e) => Err(e)
      case Ok(db1) =>
        match ItemsOf(Get(data, LineItemsKey))
        case Err(e) => Err(e)
        case Ok(items) =>
          match InsertLines(db1, id, items, 1, fault)
          case Err(e) => Err(e)
          case Ok(db2) =>
            if Refused(fault, |items| + 1).Some? then Err(Refused(fault, |items| + 1).value)
            else CreateExtraction(db2, id, CompletedRecord(data, durationMs))
  }

  // ---------------------------------------------------------------------------
  // The whole call.

  /** The first write: status `extracting` and the processing time. */
  function Begin(db: Db, id: Id, now: Time): (r: Db)
    requires id in db.invoices
    ensures Valid(db) ==> Valid(r)
    ensures Ready(db, id) ==> Ready(r, id)
  {
    db.(invoices := db.invoices[id := db.invoices[id].(status := Extracting, processedAt := Some(now))])
  }

  /** The rescue clause: status `error`, the message into notes, a failed extraction, then raise. */
  function Rescue(db: Db, id: Id, e: Error): (r: (Db, Outcome))
    requires id in db.invoices
    ensures Valid(db) ==> Valid(r.0)
    ensures r.1.Raised?
  {
    var db1 := db.(invoices := db.invoices[id := db.invoices[id].(status := Error, notes := Some(Message(e)))]);
    match CreateExtraction(db1, id, FailedRecord(Message(e)))
    case Ok(db2) => (db2, Raised(e))
    case Err(e2) => (db1, Raised(e2))
  }

  /** The branch taken when the reply has no content: status `error` and a failed extraction, outside any transaction. */
  function NoResponse(db: Db, id: Id): (r: (Db, Outcome))
    requires id in db.invoices
    ensures Valid(db) ==> Valid(r.0)
  {
    var db1 := db.(invoices := db.invoices[id := db.invoices[id].(status := Error)]);
    match CreateExtraction(db1, id, FailedRecord(NoResponseMessage))
    case Ok(db2) => (db2, Returned)
    case Err(e) => Rescue(db1, id, e)
  }

  /** `process` as intended: the rescue starts from the rows as they were before the transaction. */
  function Process(db: Db, id: Id, now: Time, reply: Reply, durationMs: nat, fault: Fault): (r: (Db, Outcome))
    requires id in db.invoices
    ensures Valid(db) ==> Valid(r.0)
    ensures id in r.0.invoices
  {
    var db1 := Begin(db, id, now);
    match reply
    case Raise(msg) => Rescue(db1, id, ClientError(msg))
    case BadJson(msg) => Rescue(db1, id, ParseError(msg))
    case NoContent => NoResponse(db1, id)
    case Obj(data) =>
      match WriteBack(db1, id, data, durationMs, fault)
      case Ok(db2) => (db2, Returned)
      case Err(e) => Rescue(db1, id, e)
  }

  // ---------------------------------------------------------------------------
  // Properties.

  predicate LineAccepted(item: JsonVal)
  {
    LineOf(item).Ok? && LineFits(LineOf(item).value)
  }

  /** No write numbered `from` to `from + count - 1` is refused. */
  predicate NoneRefused(fault: Fault, from: nat, count: nat)
  {
    !(fault.RefuseWrite? && from <= fault.step < from + count)
  }

  /** Every item converts, fits its columns, and no line write from `step` on is refused. */
  predicate LinesAccepted(items: seq<JsonVal>, step: nat, fault: Fault)
  {
    (forall k :: 0 <= k < |items| ==> LineAccepted(items[k])) && NoneRefused(fault, step, |items|)
  }

  lemma LinesAcceptedCons(items: seq<JsonVal>, step: nat, fault: Fault)
    requires items != []
    ensures LinesAccepted(items, step, fault)
      <==> LineAccepted(items[0]) && Refused(fault, step).None? && LinesAccepted(items[1..], step + 1, fault)
  {
    var rest := items[1..];
    assert forall k :: 0 <= k < |rest| ==> rest[k] == items[k + 1];
    if LinesAccepted(rest, step + 1, fault) && LineAccepted(items[0]) {
      forall k | 0 <= k < |items|
        ensures LineAccepted(items[k])
      {
        if k > 0 { assert items[k] == rest[k - 1]; }
      }
    }
  }

  /** The lines the items become, one per item, in order. */
  function ParsedLines(items: seq<JsonVal>): (r: seq<Line>)
    requires forall k :: 0 <= k < |items| ==> LineOf(items[k]).Ok?
    ensures |r| == |items|
    ensures forall k :: 0 <= k < |items| ==> r[k] == LineOf(items[k]).value
  {
    if items == [] then [] else [LineOf(items[0]).value] + ParsedLines(items[1..])
  }

  /** One turn of the `each` loop: a line not accepted raises, an accepted one is written and the loop goes on. */
  lemma InsertLinesStep(db: Db, id: Id, items: seq<JsonVal>, step: nat, fault: Fault)
    requires id in db.invoices && items != []
    ensures !(LineAccepted(items[0]) && Refused(fault, step).None?) ==> InsertLines(db, id, items, step, fault).Err?
    ensures LineAccepted(items[0]) && Refused(fault, step).None? ==>
      InsertLines(db, id, items, step, fault)
        == InsertLines(CreateLine(db, id, LineOf(items[0]).value).value, id, items[1..], step + 1, fault)
  {
  }

  /** The `each` loop at item `k` (write number `k + 1`): what the rest of the loop gives from there. */
  lemma InsertLinesTurn(db: Db, id: Id, items: seq<JsonVal>, k: nat, fault: Fault)
    requires id in db.invoices && k < |items|
    ensures var rest := InsertLines(db, id, items[k..], k + 1, fault);
      && (LineOf(items[k]).Err? ==> rest == Err(LineOf(items[k]).error))
      && (LineOf(items[k]).Ok? && Refused(fault, k + 1).Some? ==> rest == Err(Refused(fault, k + 1).value))
      && (LineOf(items[k]).Ok? && Refused(fault, k + 1).None? && !LineFits(LineOf(items[k]).value) ==>
            rest == Err(NumericOverflow))
      && (LineOf(items[k]).Ok? && Refused(fault, k + 1).None? && LineFits(LineOf(items[k]).value) ==>
            rest == InsertLines(CreateLine(db, id, LineOf(items[k]).value).value, id, items[k + 1..], k + 2, fault))
  {
    assert items[k..][0] == items[k] && items[k..][1..] == items[k + 1..];
  }

  /** The `each` loop appends exactly the parsed lines, or raises when some line is not accepted. */
  lemma {:induction false} InsertLinesSpec(db: Db, id: Id, items: seq<JsonVal>, step: nat, fault: Fault)
    requires id in db.invoices && id in db.lines
    ensures InsertLines(db, id, items, step, fault).Ok? <==> LinesAccepted(items, step, fault)
    ensures LinesAccepted(items, step, fault) ==>
      InsertLines(db, id, items, step, fault).value.lines == db.lines[id := db.lines[id] + ParsedLines(items)]
    decreases |items|
  {
    if items == [] {
      assert db.lines[id] + ParsedLines(items) == db.lines[id];
      assert db.lines[id := db.lines[id]] == db.lines;
    } else {
      LinesAcceptedCons(items, step, fault);
      InsertLinesStep(db, id, items, step, fault);
      if LineAccepted(items[0]) && Refused(fault, step).None? {
        var l := LineOf(items[0]).value;
        var db' := CreateLine(db, id, l).value;
        InsertLinesSpec(db', id, items[1..], step + 1, fault);
        if LinesAccepted(items, step, fault) {
          var P := ParsedLines(items[1..]);
          var L := db.lines[id];
          assert ParsedLines(items) == [l] + P;
          assert db'.lines == db.lines[id := L + [l]];
          SeqAssoc(L, l, P);
          MapOverride(db.lines, id, L + [l], L + ([l] + P));
        }
      }
    }
  }

  /** What the transaction needs of the invoice's own rows before it starts. */
  predicate Ready(db: Db, id: Id)
  {
    id in db.invoices && id in db.lines && InvoiceFits(db.invoices[id])
  }

  lemma ValidReady(db: Db, id: Id)
    requires Valid(db) && id in db.invoices
    ensures Ready(db, id)
  {
  }

  /** When the transaction commits: exactly the conditions under which every one of its writes succeeds. */
  predicate WriteBackAccepted(db: Db, id: Id, data: map<string, JsonVal>, durationMs: nat, fault: Fault)
  {
    && Refused(fault, 0).None?
    && FitsCell(CastDecimal(Get(data, "Total Amount"), 2), 12)
    && ItemsOf(Get(data, "Line Items")).Ok?
    && LinesAccepted(ItemsOf(Get(data, "Line Items")).value, 1, fault)
    && Refused(fault, |ItemsOf(Get(data, "Line Items")).value| + 1).None?
    && durationMs <= Int4Max
    && id !in db.extractions
  }

  /** The transaction after its invoice update: the lines, then the extraction. */
  lemma WriteBackTail(db1: Db, id: Id, data: map<string, JsonVal>, items: seq<JsonVal>, durationMs: nat, fault: Fault)
    requires id in db1.invoices && id in db1.lines
    ensures var r := InsertLines(db1, id, items, 1, fault);
      var ok := LinesAccepted(items, 1, fault) && Refused(fault, |items| + 1).None?
        && durationMs <= Int4Max && id !in db1.extractions;
      && (r.Ok? && Refused(fault, |items| + 1).None? ==>
            (CreateExtraction(r.value, id, CompletedRecord(data, durationMs)).Ok? <==> ok))
      && (r.Ok? <==> LinesAccepted(items, 1, fault))
      && (ok ==> CreateExtraction(r.value, id, CompletedRecord(data, durationMs)).value == Db(
            db1.invoices,
            db1.lines[id := db1.lines[id] + ParsedLines(items)],
            db1.extractions[id := CompletedRecord(data, durationMs)]))
  {
    InsertLinesSpec(db1, id, items, 1, fault);
    assert ExtractionFits(CompletedRecord(data, durationMs)) <==> durationMs <= Int4Max;
  }

  /**
   * The transaction commits exactly when every write is accepted, and then the
   * invoice holds the extracted fields, its lines are the old ones followed by one
   * per item, and one completed extraction exists; nothing else changes.
   */
  lemma WriteBackSpec(db: Db, id: Id, data: map<string, JsonVal>, durationMs: nat, fault: Fault)
    requires Ready(db, id)
    ensures WriteBack(db, id, data, durationMs, fault).Ok? <==> WriteBackAccepted(db, id, data, durationMs, fault)
    ensures WriteBackAccepted(db, id, data, durationMs, fault) ==>
      WriteBack(db, id, data, durationMs, fault).value == Db(
        db.invoices[id := WithExtractedFields(db.invoices[id], data)],
        db.lines[id := db.lines[id] + ParsedLines(ItemsOf(Get(data, "Line Items")).value)],
        db.extractions[id := CompletedRecord(data, durationMs)])
  {
    var inv := WithExtractedFields(db.invoices[id], data);
    assert InvoiceFits(inv) <==> FitsCell(CastDecimal(Get(data, "Total Amount"), 2), 12);
    if Refused(fault, 0).None? && InvoiceFits(inv) {
      var db1 := UpdateInvoice(db, id, inv).value;
      assert db1 == db.(invoices := db.invoices[id := inv]);
      var v := ItemsOf(Get(data, LineItemsKey));
      if v.Ok? {
        WriteBackTail(db1, id, data, v.value, durationMs, fault);
      }
    }
  }

  /** The four branches of `process`, after its first write. */
  lemma ProcessBranches(db: Db, id: Id, now: Time, reply: Reply, durationMs: nat, fault: Fault)
    requires id in db.invoices
    ensures var db1 := Begin(db, id, now);
      && (reply.Raise? ==> Process(db, id, now, reply, durationMs, fault) == Rescue(db1, id, ClientError(reply.msg)))
      && (reply.BadJson? ==> Process(db, id, now, reply, durationMs, fault) == Rescue(db1, id, ParseError(reply.msg)))
      && (reply.NoContent? ==> Process(db, id, now, reply, durationMs, fault) == NoResponse(db1, id))
      && (reply.Obj? ==>
            var w := WriteBack(db1, id, reply.data, durationMs, fault);
            Process(db, id, now, reply, durationMs, fault) ==
              (if w.Ok? then (w.value, Returned) else Rescue(db1, id, w.error)))
  {
  }

  /**
   * Whatever the rescue is handed: status `error`, notes the message, lines
   * untouched, a failed extraction carrying the message, and the same error
   * raised; unless the invoice already has its extraction row, when the insert
   * violates the unique index and that error is raised instead.
   */
  lemma RescueSpec(db: Db, id: Id, e: Error)
    requires id in db.invoices
    ensures var (db', o) := Rescue(db, id, e);
      && db'.invoices == db.invoices[id := db.invoices[id].(status := Error, notes := Some(Message(e)))]
      && db'.lines == db.lines
      && (id !in db.extractions ==>
            o == Raised(e) && db'.extractions == db.extractions[id := FailedRecord(Message(e))])
      && (id in db.extractions ==>
            o == Raised(RecordNotUnique) && db'.extractions == db.extractions)
  {
    var db1 := db.(invoices := db.invoices[id := db.invoices[id].(status := Error, notes := Some(Message(e)))]);
    assert ExtractionFits(FailedRecord(Message(e)));
    assert db1.extractions == db.extractions;
  }

  lemma NoResponseSpec(db: Db, id: Id)
    requires id in db.invoices
    ensures var (db', o) := NoResponse(db, id);
      && db'.lines == db.lines
      && (id !in db.extractions ==>
            && o == Returned
            && db'.invoices == db.invoices[id := db.invoices[id].(status := Error)]
            && db'.extractions == db.extractions[id := FailedRecord(NoResponseMessage)])
      && (id in db.extractions ==>
            && o == Raised(RecordNotUnique)
            && db'.invoices == db.invoices[id := db.invoices[id].(status := Error, notes := Some(Message(RecordNotUnique)))]
            && db'.extractions == db.extractions)
  {
    var inv := db.invoices[id].(status := Error);
    var db1 := db.(invoices := db.invoices[id := inv]);
    assert ExtractionFits(FailedRecord(NoResponseMessage));
    if id in db.extractions {
      RescueSpec(db1, id, RecordNotUnique);
      MapOverride(db.invoices, id, inv, inv.(status := Error, notes := Some(Message(RecordNotUnique))));
    }
  }

  /**
   * A reply that decodes to an object and a transaction that commits: the invoice
   * holds the extracted fields and status `extracted`, its lines are followed by one
   * per item, a completed extraction is recorded, and `process` returns normally.
   */
  lemma ProcessSucceeds(db: Db, id: Id, now: Time, data: map<string, JsonVal>, durationMs: nat, fault: Fault)
    requires Ready(db, id) && WriteBackAccepted(db, id, data, durationMs, fault)
    ensures var (db', o) := Process(db, id, now, Obj(data), durationMs, fault);
      && o == Returned
      && db'.invoices == db.invoices[id := db.invoices[id].(
           vendorName := CastText(Get(data, "Vendor Name")),
           invoiceNumber := CastText(Get(data, "Invoice Number")),
           invoiceDate := CastDate(Get(data, "Invoice Date")),
           dueDate := CastDate(Get(data, "Due Date")),
           totalAmount := CastDecimal(Get(data, "Total Amount"), 2),
           currency := CastText(Get(data, "Currency")),
           extractedData := Some(JObj(data)),
           status := Extracted,
           processedAt := Some(now))]
      && db'.lines == db.lines[id := db.lines[id] + ParsedLines(ItemsOf(Get(data, "Line Items")).value)]
      && db'.extractions == db.extractions[id :=
           Extraction(Some("gpt-4o-mock"), Some(Prompt), Some(JObj(data)), Some(95), None, Some(durationMs), None, Completed)]
  {
    var db1 := Begin(db, id, now);
    ProcessBranches(db, id, now, Obj(data), durationMs, fault);
    WriteBackSpec(db1, id, data, durationMs, fault);
    MapOverride(db.invoices, id, db1.invoices[id], WithExtractedFields(db1.invoices[id], data));
  }

  /**
   * The transaction rolls back: none of its writes remain, so the lines are as
   * they were and the invoice has only the first write and the rescue's (status
   * `error`, the message in notes); a failed extraction records the message.
   */
  lemma ProcessRollsBack(db: Db, id: Id, now: Time, data: map<string, JsonVal>, durationMs: nat, fault: Fault)
    requires Ready(db, id) && !WriteBackAccepted(db, id, data, durationMs, fault)
    ensures var (db', o) := Process(db, id, now, Obj(data), durationMs, fault);
      && o.Raised?
      && db'.lines == db.lines
      && db'.invoices == db.invoices[id := db.invoices[id].(
           status := Error, processedAt := Some(now), notes := db'.invoices[id].notes)]
      && db'.invoices[id].notes.Some?
      && (id !in db.extractions ==>
            && db'.invoices[id].notes == Some(Message(o.error))
            && db'.extractions == db.extractions[id := FailedRecord(Message(o.error))])
      && (id in db.extractions ==> o.error == RecordNotUnique && db'.extractions == db.extractions)
  {
    var db1 := Begin(db, id, now);
    ProcessBranches(db, id, now, Obj(data), durationMs, fault);
    WriteBackSpec(db1, id, data, durationMs, fault);
    var e := WriteBack(db1, id, data, durationMs, fault).error;
    RescueSpec(db1, id, e);
    MapOverride(db.invoices, id, db1.invoices[id], db1.invoices[id].(status := Error, notes := Some(Message(e))));
  }

  /**
   * The client raised or the content was not JSON: status `error`, the error's
   * message in notes, a failed extraction carrying it, and the error re-raised.
   */
  lemma ProcessFailsOnError(db: Db, id: Id, now: Time, reply: Reply, durationMs: nat, fault: Fault)
    requires id in db.invoices && (reply.Raise? || reply.BadJson?)
    ensures var e := if reply.Raise? then ClientError(reply.msg) else ParseError(reply.msg);
      var (db', o) := Process(db, id, now, reply, durationMs, fault);
      && db'.lines == db.lines
      && db'.invoices == db.invoices[id := db.invoices[id].(
           status := Error, processedAt := Some(now), notes := Some(reply.msg))]
      && (id !in db.extractions ==> o == Raised(e) && db'.extractions == db.extractions[id := FailedRecord(reply.msg)])
      && (id in db.extractions ==> o == Raised(RecordNotUnique) && db'.extractions == db.extractions)
  {
    var e := if reply.Raise? then ClientError(reply.msg) else ParseError(reply.msg);
    var db1 := Begin(db, id, now);
    ProcessBranches(db, id, now, reply, durationMs, fault);
    RescueSpec(db1, id, e);
    MapOverride(db.invoices, id, db1.invoices[id], db1.invoices[id].(status := Error, notes := Some(Message(e))));
  }

  /**
   * A reply without content: status `error` and a failed extraction with the fixed
   * message, and `process` returns normally, notes untouched; only when the
   * extraction cannot be inserted does the rescue run.
   */
  lemma ProcessOnNoContent(db: Db, id: Id, now: Time, durationMs: nat, fault: Fault)
    requires id in db.invoices
    ensures var (db', o) := Process(db, id, now, NoContent, durationMs, fault);
      && db'.lines == db.lines
      && (id !in db.extractions ==>
            && o == Returned
            && db'.invoices == db.invoices[id := db.invoices[id].(status := Error, processedAt := Some(now))]
            && db'.extractions == db.extractions[id := FailedRecord("Failed to get response from AI")])
      && (id in db.extractions ==>
            && o == Raised(RecordNotUnique)
            && db'.invoices == db.invoices[id := db.invoices[id].(
                 status := Error, processedAt := Some(now), notes := Some(Message(RecordNotUnique)))]
            && db'.extractions == db.extractions)
  {
    var db1 := Begin(db, id, now);
    ProcessBranches(db, id, now, NoContent, durationMs, fault);
    NoResponseSpec(db1, id);
    MapOverride(db.invoices, id, db1.invoices[id], db1.invoices[id].(status := Error));
    MapOverride(db.invoices, id, db1.invoices[id], db1.invoices[id].(status := Error, notes := Some(Message(RecordNotUnique))));
  }

  /** What every path of `process` does to the invoice's own rows. */
  lemma ProcessOwnRows(db: Db, id: Id, now: Time, reply: Reply, durationMs: nat, fault: Fault)
    requires Ready(db, id)
    ensures var (db', o) := Process(db, id, now, reply, durationMs, fault);
      && id in db'.lines && id in db'.extractions
      && db.lines[id] <= db'.lines[id]
      && db'.invoices[id].processedAt == Some(now)
      && (db'.invoices[id].status == Extracted <==> reply.Obj? && WriteBackAccepted(db, id, reply.data, durationMs, fault))
      && (db'.invoices[id].status != Extracted ==> db'.invoices[id].status == Error && db'.lines == db.lines)
  {
    match reply
    case Raise(_) => ProcessFailsOnError(db, id, now, reply, durationMs, fault);
    case BadJson(_) => ProcessFailsOnError(db, id, now, reply, durationMs, fault);
    case NoContent => ProcessOnNoContent(db, id, now, durationMs, fault);
    case Obj(data) =>
      if WriteBackAccepted(db, id, data, durationMs, fault) {
        ProcessSucceeds(db, id, now, data, durationMs, fault);
        var items := ItemsOf(Get(data, "Line Items")).value;
        assert db.lines[id] <= db.lines[id] + ParsedLines(items);
      } else {
        ProcessRollsBack(db, id, now, data, durationMs, fault);
      }
  }

  /** `db'` differs from `db` at most in the rows of invoice `id`, which keeps its rows and gains an extraction. */
  predicate Local(db: Db, db': Db, id: Id)
  {
    && db'.invoices.Keys == db.invoices.Keys
    && db'.lines.Keys == db.lines.Keys
    && db'.extractions.Keys == db.extractions.Keys + {id}
    && (forall j :: j in db.invoices && j != id ==> db'.invoices[j] == db.invoices[j])
    && (forall j :: j in db.lines && j != id ==> db'.lines[j] == db.lines[j])
    && (forall j :: j in db.extractions && j != id ==> db'.extractions[j] == db.extractions[j])
  }

  /** Rewriting the invoice's own rows, and giving it an extraction when it has none, is local. */
  lemma LocalUpdate(db: Db, id: Id, inv: Invoice, ls: seq<Line>, x: Extraction)
    requires id in db.invoices && id in db.lines
    ensures Local(db, Db(db.invoices[id := inv], db.lines[id := ls], db.extractions[id := x]), id)
    ensures id in db.extractions ==> Local(db, Db(db.invoices[id := inv], db.lines[id := ls], db.extractions), id)
  {
  }

  lemma FailureIsLocal(db: Db, id: Id, now: Time, reply: Reply, durationMs: nat, fault: Fault)
    requires Ready(db, id) && (reply.Raise? || reply.BadJson?)
    ensures Local(db, Process(db, id, now, reply, durationMs, fault).0, id)
  {
    var db' := Process(db, id, now, reply, durationMs, fault).0;
    ProcessFailsOnError(db, id, now, reply, durationMs, fault);
    LocalUpdate(db, id, db'.invoices[id], db.lines[id], FailedRecord(reply.msg));
    assert db.lines[id := db.lines[id]] == db.lines;
  }

  lemma NoContentIsLocal(db: Db, id: Id, now: Time, durationMs: nat, fault: Fault)
    requires Ready(db, id)
    ensures Local(db, Process(db, id, now, NoContent, durationMs, fault).0, id)
  {
    var db' := Process(db, id, now, NoContent, durationMs, fault).0;
    ProcessOnNoContent(db, id, now, durationMs, fault);
    LocalUpdate(db, id, db'.invoices[id], db.lines[id], FailedRecord(NoResponseMessage));
    assert db.lines[id := db.lines[id]] == db.lines;
  }

  lemma CommitIsLocal(db: Db, id: Id, now: Time, data: map<string, JsonVal>, durationMs: nat, fault: Fault)
    requires Ready(db, id) && WriteBackAccepted(db, id, data, durationMs, fault)
    ensures Local(db, Process(db, id, now, Obj(data), durationMs, fault).0, id)
  {
    var db' := Process(db, id, now, Obj(data), durationMs, fault).0;
    ProcessSucceeds(db, id, now, data, durationMs, fault);
    LocalUpdate(db, id, db'.invoices[id], db'.lines[id], db'.extractions[id]);
  }

  lemma RollbackIsLocal(db: Db, id: Id, now: Time, data: map<string, JsonVal>, durationMs: nat, fault: Fault)
    requires Ready(db, id) && !WriteBackAccepted(db, id, data, durationMs, fault)
    ensures Local(db, Process(db, id, now, Obj(data), durationMs, fault).0, id)
  {
    var (db', o) := Process(db, id, now, Obj(data), durationMs, fault);
    ProcessRollsBack(db, id, now, data, durationMs, fault);
    LocalUpdate(db, id, db'.invoices[id], db.lines[id], FailedRecord(Message(o.error)));
    assert db.lines[id := db.lines[id]] == db.lines;
  }

  lemma ProcessFrame(db: Db, id: Id, now: Time, reply: Reply, durationMs: nat, fault: Fault)
    requires Ready(db, id)
    ensures Local(db, Process(db, id, now, reply, durationMs, fault).0, id)
  {
    match reply
    case Raise(_) => FailureIsLocal(db, id, now, reply, durationMs, fault);
    case BadJson(_) => FailureIsLocal(db, id, now, reply, durationMs, fault);
    case NoContent => NoContentIsLocal(db, id, now, durationMs, fault);
    case Obj(data) =>
      if WriteBackAccepted(db, id, data, durationMs, fault) {
        CommitIsLocal(db, id, now, data, durationMs, fault);
      } else {
        RollbackIsLocal(db, id, now, data, durationMs, fault);
      }
  }

  /**
   * `process` always settles the invoice: it is `extracted` exactly when the reply
   * decoded and the transaction committed, `error` otherwise (and then its lines are
   * untouched); whenever it raises the invoice is `error`; and the invoice ends up
   * with its extraction row. Lines are only ever appended.
   */
  lemma ProcessSettles(db: Db, id: Id, now: Time, reply: Reply, durationMs: nat, fault: Fault)
    requires Ready(db, id)
    ensures var (db', o) := Process(db, id, now, reply, durationMs, fault);
      && id in db'.lines && id in db'.extractions
      && db'.invoices[id].processedAt == Some(now)
      && (db'.invoices[id].status == Extracted || db'.invoices[id].status == Error)
      && (db'.invoices[id].status == Extracted <==> reply.Obj? && WriteBackAccepted(db, id, reply.data, durationMs, fault))
      && (db'.invoices[id].status == Error ==> db'.lines[id] == db.lines[id])
      && (o.Raised? ==> db'.invoices[id].status == Error)
      && db.lines[id] <= db'.lines[id]
  {
    ProcessOwnRows(db, id, now, reply, durationMs, fault);
    if reply.Obj? && WriteBackAccepted(db, id, reply.data, durationMs, fault) {
      ProcessSucceeds(db, id, now, reply.data, durationMs, fault);
    }
  }

  /**
   * `process` touches only its own invoice, that invoice's lines and its extraction,
   * adds no invoice, and keeps every schema guarantee.
   */
  lemma ProcessIsLocal(db: Db, id: Id, now: Time, reply: Reply, durationMs: nat, fault: Fault)
    requires Valid(db) && id in db.invoices
    ensures var (db', o) := Process(db, id, now, reply, durationMs, fault);
      && Valid(db')
      && db'.invoices.Keys == db.invoices.Keys
      && db'.extractions.Keys == db.extractions.Keys + {id}
      && (forall j :: j in db.invoices && j != id ==> db'.invoices[j] == db.invoices[j])
      && (forall j :: j in db.lines && j != id ==> db'.lines[j] == db.lines[j])
      && (forall j :: j in db.extractions && j != id ==> db'.extractions[j] == db.extractions[j])
  {
    ValidReady(db, id);
    ProcessFrame(db, id, now, reply, durationMs, fault);
  }

  /**
   * An object item fills each line column from its exact key: an absent key leaves
   * the column NULL, a string fills a text column as given and a number fills a
   * decimal column rounded to its scale.
   */
  lemma LineFromObject(fields: map<string, JsonVal>)
    ensures LineOf(JObj(fields)).Ok?
    ensures var l := LineOf(JObj(fields)).value;
      && ("Description" !in fields ==> l.description.None?)
      && ("Description" in fields && fields["Description"].JStr? ==> l.description == Some(fields["Description"].s))
      && ("Quantity" !in fields ==> l.quantity.None?)
      && ("Quantity" in fields && fields["Quantity"].JNum? ==> l.quantity == Some(RoundToScale(fields["Quantity"].n, 3)))
      && ("Unit Price" !in fields ==> l.unitPrice.None?)
      && ("Unit Price" in fields && fields["Unit Price"].JNum? ==> l.unitPrice == Some(RoundToScale(fields["Unit Price"].n, 2)))
      && ("Total" !in fields ==> l.lineTotal.None?)
      && ("Total" in fields && fields["Total"].JNum? ==> l.lineTotal == Some(RoundToScale(fields["Total"].n, 2)))
      && ("SKU" !in fields ==> l.sku.None?)
      && ("SKU" in fields && fields["SKU"].JStr? ==> l.sku == Some(fields["SKU"].s))
  {
  }

  /**
   * A string item is indexed by substring: each column reads its own key when the
   * string contains it and nil otherwise, so a text column holds the key's name and
   * a decimal column 0 (the name has no digits) or NULL.
   */
  lemma LineFromString(s: string)
    ensures LineOf(JStr(s)).Ok?
    ensures var l := LineOf(JStr(s)).value;
      && (l.description == Some("Description") <==> exists i :: OccursAtIndex("Description", s, i))
      && (l.description != Some("Description") ==> l.description.None?)
      && (l.sku == Some("SKU") <==> exists i :: OccursAtIndex("SKU", s, i))
      && (l.sku != Some("SKU") ==> l.sku.None?)
      && (l.quantity == Some(0) <==> exists i :: OccursAtIndex("Quantity", s, i))
      && (l.quantity != Some(0) ==> l.quantity.None?)
      && (l.unitPrice == Some(0) <==> exists i :: OccursAtIndex("Unit Price", s, i))
      && (l.unitPrice != Some(0) ==> l.unitPrice.None?)
      && (l.lineTotal == Some(0) <==> exists i :: OccursAtIndex("Total", s, i))
      && (l.lineTotal != Some(0) ==> l.lineTotal.None?)
  {
    var l := LineOf(JStr(s)).value;
    assert l.quantity == CastDecimal(StringIndex(s, "Quantity"), 3);
    assert l.unitPrice == CastDecimal(StringIndex(s, "Unit Price"), 2);
    assert l.lineTotal == CastDecimal(StringIndex(s, "Total"), 2);
    StringColumn(s, "Quantity", 3);
    StringColumn(s, "Unit Price", 2);
    StringColumn(s, "Total", 2);
  }

  /** A decimal column read from a string item by a key that starts with a letter: 0 when the key occurs, NULL otherwise. */
  lemma StringColumn(s: string, key: string, scale: nat)
    requires key != [] && 'A' <= key[0] <= 'Z'
    ensures CastDecimal(StringIndex(s, key), scale) == Some(0) <==> exists i :: OccursAtIndex(key, s, i)
    ensures CastDecimal(StringIndex(s, key), scale) != Some(0) ==> CastDecimal(StringIndex(s, key), scale).None?
  {
    ToDOfWord(key);
  }

  /** Any other item kind (a number, a boolean, nil, an array) cannot take a string index, so no line list holding one is accepted. */
  lemma LineFromScalar(items: seq<JsonVal>, k: nat, step: nat, fault: Fault)
    requires k < |items| && !items[k].JObj? && !items[k].JStr?
    ensures LineOf(items[k]) == Err(NotIndexable)
    ensures !LinesAccepted(items, step, fault)
  {
  }
}
