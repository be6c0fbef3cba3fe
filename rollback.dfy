/**
 * `process` as the code is written, with what an ActiveRecord rollback leaves in
 * memory. The rolled-back transaction resets no Ruby object: the invoice keeps
 * the values its `update!` assigned, as unsaved changes; each line that
 * `invoice.invoice_lines.create!` inserted is an unsaved record again but stays
 * in the invoice's `invoice_lines`; and the extraction that `Extraction.create!`
 * built is the invoice's cached `extraction`, unsaved. The rescue's own
 * `invoice.update!` saves all of them, in one transaction of its own: the
 * record, then the lines (the has_many is declared first), then the extraction.
 */
module Rollback {
  import opened Wrappers
  import opened Json
  import opened Schema
  import opened Processing

  // ---------------------------------------------------------------------------
  // What the transaction leaves behind.

  /** The lines the `each` loop inserted before it stopped: those of the accepted prefix of the items. */
  function WrittenLines(items: seq<JsonVal>, step: nat, fault: Fault): (ls: seq<Line>)
    ensures |ls| <= |items|
    ensures forall k :: 0 <= k < |ls| ==>
      LineAccepted(items[k]) && Refused(fault, step + k).None? && ls[k] == LineOf(items[k]).value
    ensures |ls| < |items| ==> !(LineAccepted(items[|ls|]) && Refused(fault, step + |ls|).None?)
    ensures NoneRefused(fault, step, |ls|)
    decreases |items|
  {
    if items == [] || !LineAccepted(items[0]) || Refused(fault, step).Some? then []
    else
      var rest := WrittenLines(items[1..], step + 1, fault);
      assert forall k :: 1 <= k < |rest| + 1 ==> items[k] == items[1..][k - 1];
      [LineOf(items[0]).value] + rest
  }

  /** The loop inserts every item exactly when every line is accepted, and then the written lines are the parsed ones. */
  lemma {:induction false} WrittenLinesAll(items: seq<JsonVal>, step: nat, fault: Fault)
    ensures |WrittenLines(items, step, fault)| == |items| <==> LinesAccepted(items, step, fault)
    ensures LinesAccepted(items, step, fault) ==> WrittenLines(items, step, fault) == ParsedLines(items)
  {
    var ls := WrittenLines(items, step, fault);
    if |ls| == |items| {
      forall k | 0 <= k < |items|
        ensures LineAccepted(items[k])
      {
      }
    }
  }

  /** The lines written are those the loop inserted before the item at which it stopped. */
  lemma WrittenLinesInserted(db: Db, id: Id, items: seq<JsonVal>, step: nat, fault: Fault)
    requires id in db.invoices && id in db.lines
    ensures var ls := WrittenLines(items, step, fault);
      && InsertLines(db, id, items[..|ls|], step, fault).Ok?
      && InsertLines(db, id, items[..|ls|], step, fault).value.lines == db.lines[id := db.lines[id] + ls]
  {
    var ls := WrittenLines(items, step, fault);
    var prefix := items[..|ls|];
    assert forall k :: 0 <= k < |prefix| ==> prefix[k] == items[k];
    assert |WrittenLines(prefix, step, fault)| == |prefix| by {
      PrefixWritten(items, step, fault, |ls|);
    }
    WrittenLinesAll(prefix, step, fault);
    InsertLinesSpec(db, id, prefix, step, fault);
    assert ParsedLines(prefix) == ls;
  }

  /** Any prefix of the accepted prefix is written whole. */
  lemma {:induction false} PrefixWritten(items: seq<JsonVal>, step: nat, fault: Fault, n: nat)
    requires n <= |WrittenLines(items, step, fault)|
    ensures |WrittenLines(items[..n], step, fault)| == n
    decreases n
  {
    if n > 0 {
      assert items[..n][0] == items[0];
      assert items[..n][1..] == items[1..][..n - 1];
      PrefixWritten(items[1..], step + 1, fault, n - 1);
    }
  }

  /** Whether the transaction reached `Extraction.create!`, which caches the new extraction on the invoice before inserting it. */
  predicate ReachesExtraction(db1: Db, id: Id, data: map<string, JsonVal>, fault: Fault)
    requires id in db1.invoices
  {
    && Refused(fault, 0).None?
    && InvoiceFits(WithExtractedFields(db1.invoices[id], data))
    && ItemsOf(Get(data, LineItemsKey)).Ok?
    && LinesAccepted(ItemsOf(Get(data, LineItemsKey)).value, 1, fault)
  }

  /** The unsaved lines in the invoice's `invoice_lines` once the transaction has rolled back. */
  function UnsavedLines(db1: Db, id: Id, data: map<string, JsonVal>, fault: Fault): (ls: seq<Line>)
    requires id in db1.invoices
    ensures forall k :: 0 <= k < |ls| ==> LineFits(ls[k])
    ensures ReachesExtraction(db1, id, data, fault) ==> ls == ParsedLines(ItemsOf(Get(data, LineItemsKey)).value)
  {
    if Refused(fault, 0).Some? || !InvoiceFits(WithExtractedFields(db1.invoices[id], data)) then []
    else match ItemsOf(Get(data, LineItemsKey))
      case Err(_) => []
      case Ok(items) =>
        WrittenLinesAll(items, 1, fault);
        WrittenLines(items, 1, fault)
  }

  /** The unsaved extraction cached on the invoice, if `Extraction.create!` was reached. */
  function UnsavedExtraction(db1: Db, id: Id, data: map<string, JsonVal>, durationMs: nat, fault: Fault): (x: Option<Extraction>)
    requires id in db1.invoices
    ensures x.Some? <==> ReachesExtraction(db1, id, data, fault)
  {
    if ReachesExtraction(db1, id, data, fault) then Some(CompletedRecord(data, durationMs)) else None
  }

  // ---------------------------------------------------------------------------
  // The rescue as written.

  /** One `CreateLine` per line, in order, stopping at the first refusal. */
  function CreateLines(db: Db, id: Id, ls: seq<Line>): (r: Result<Db, Error>)
    requires id in db.invoices
    ensures Valid(db) && r.Ok? ==> Valid(r.value)
    ensures r.Ok? ==> r.value.invoices == db.invoices && r.value.extractions == db.extractions
    decreases |ls|
  {
    if ls == [] then Ok(db)
    else match CreateLine(db, id, ls[0])
      case Err(e) => Err(e)
      case Ok(db') => CreateLines(db', id, ls[1..])
  }

  /** The lines are all inserted exactly when they all fit, and then they follow the invoice's lines. */
  lemma {:induction false} CreateLinesSpec(db: Db, id: Id, ls: seq<Line>)
    requires id in db.invoices && id in db.lines
    ensures CreateLines(db, id, ls).Ok? <==> forall k :: 0 <= k < |ls| ==> LineFits(ls[k])
    ensures CreateLines(db, id, ls).Ok? ==>
      CreateLines(db, id, ls).value == db.(lines := db.lines[id := db.lines[id] + ls])
    decreases |ls|
  {
    if ls == [] {
      assert db.lines[id] + ls == db.lines[id];
      assert db.lines[id := db.lines[id]] == db.lines;
    } else {
      var rest := ls[1..];
      assert forall k :: 1 <= k < |ls| ==> ls[k] == rest[k - 1];
      if LineFits(ls[0]) {
        var db' := CreateLine(db, id, ls[0]).value;
        CreateLinesSpec(db', id, rest);
        var L := db.lines[id];
        assert ls == [ls[0]] + rest;
        SeqAssoc(L, ls[0], rest);
        MapOverride(db.lines, id, L + [ls[0]], L + ls);
      }
    }
  }

  /**
   * The rescue's `invoice.update!(status: 'error', notes: ...)` as written: the
   * in-memory record, then its unsaved lines, then its unsaved extraction; any
   * refusal rolls all of it back.
   */
  function SaveRecord(db: Db, id: Id, record: Invoice, ls: seq<Line>, x: Option<Extraction>): (r: Result<Db, Error>)
    requires id in db.invoices
    ensures Valid(db) && r.Ok? ==> Valid(r.value)
    ensures r.Ok? ==> r.value.invoices == db.invoices[id := record]
  {
    match UpdateInvoice(db, id, record)
    case Err(e) => Err(e)
    case Ok(db1) =>
      match CreateLines(db1, id, ls)
      case Err(e) => Err(e)
      case Ok(db2) => if x.Some? then CreateExtraction(db2, id, x.value) else Ok(db2)
  }

  /** The save succeeds exactly when every part of it is accepted; it then stores the record, appends the lines and inserts the extraction. */
  lemma SaveRecordSpec(db: Db, id: Id, record: Invoice, ls: seq<Line>, x: Option<Extraction>)
    requires id in db.invoices && id in db.lines
    ensures var r := SaveRecord(db, id, record, ls, x);
      && (r.Ok? <==>
            && InvoiceFits(record)
            && (forall k :: 0 <= k < |ls| ==> LineFits(ls[k]))
            && (x.Some? ==> id !in db.extractions && ExtractionFits(x.value)))
      && (r.Ok? ==> r.value == Db(
            db.invoices[id := record],
            db.lines[id := db.lines[id] + ls],
            if x.Some? then db.extractions[id := x.value] else db.extractions))
      && ((InvoiceFits(record) && (forall k :: 0 <= k < |ls| ==> LineFits(ls[k])) && x.Some?
            && CreateExtraction(db, id, x.value).Err?) ==> r == Err(CreateExtraction(db, id, x.value).error))
  {
    if InvoiceFits(record) {
      var db1 := UpdateInvoice(db, id, record).value;
      CreateLinesSpec(db1, id, ls);
    }
  }

  /** The rescue clause as written: the save above, then `Extraction.create!` of a failed record, then raise. */
  function RescueAsWritten(db: Db, id: Id, record: Invoice, ls: seq<Line>, x: Option<Extraction>, e: Error): (r: (Db, Outcome))
    requires id in db.invoices
    ensures Valid(db) ==> Valid(r.0)
    ensures id in r.0.invoices
    ensures r.1.Raised?
  {
    match SaveRecord(db, id, record.(status := Error, notes := Some(Message(e))), ls, x)
    case Err(e2) => (db, Raised(e2))
    case Ok(db1) =>
      match CreateExtraction(db1, id, FailedRecord(Message(e)))
      case Ok(db2) => (db2, Raised(e))
      case Err(e2) => (db1, Raised(e2))
  }

  /**
   * The branch for a reply without content, as written: when the failed extraction
   * is refused it stays cached on the invoice, and the rescue's save tries it again.
   */
  function NoResponseAsWritten(db: Db, id: Id): (r: (Db, Outcome))
    requires id in db.invoices
    ensures Valid(db) ==> Valid(r.0)
    ensures id in r.0.invoices
  {
    var db1 := db.(invoices := db.invoices[id := db.invoices[id].(status := Error)]);
    ErrorStatusKeepsValid(db, id);
    match CreateExtraction(db1, id, FailedRecord(NoResponseMessage))
    case Ok(db2) => (db2, Returned)
    case Err(e) => RescueAsWritten(db1, id, db1.invoices[id], [], Some(FailedRecord(NoResponseMessage)), e)
  }

  /** Setting an invoice's status alone keeps the schema's guarantees. */
  lemma ErrorStatusKeepsValid(db: Db, id: Id)
    requires id in db.invoices
    ensures Valid(db) ==> Valid(db.(invoices := db.invoices[id := db.invoices[id].(status := Error)]))
  {
  }

  /** `process` as written. */
  function ProcessAsWritten(db: Db, id: Id, now: Time, reply: Reply, durationMs: nat, fault: Fault): (r: (Db, Outcome))
    requires id in db.invoices
    ensures Valid(db) ==> Valid(r.0)
    ensures id in r.0.invoices
  {
    var db1 := Begin(db, id, now);
    match reply
    case Raise(msg) => RescueAsWritten(db1, id, db1.invoices[id], [], None, ClientError(msg))
    case BadJson(msg) => RescueAsWritten(db1, id, db1.invoices[id], [], None, ParseError(msg))
    case NoContent => NoResponseAsWritten(db1, id)
    case Obj(data) =>
      match WriteBack(db1, id, data, durationMs, fault)
      case Ok(db2) => (db2, Returned)
      case Err(e) =>
        RescueAsWritten(db1, id, WithExtractedFields(db1.invoices[id], data), UnsavedLines(db1, id, data, fault),
                        UnsavedExtraction(db1, id, data, durationMs, fault), e)
  }

  /** What the rescue as written leaves, given how its save fares. */
  lemma RescueAsWrittenSteps(db: Db, id: Id, record: Invoice, ls: seq<Line>, x: Option<Extraction>, e: Error)
    requires id in db.invoices
    ensures var (db', o) := RescueAsWritten(db, id, record, ls, x, e);
      var s := SaveRecord(db, id, record.(status := Error, notes := Some(Message(e))), ls, x);
      && (s.Err? ==> db' == db && o == Raised(s.error))
      && (s.Ok? && id !in s.value.extractions ==>
            db' == s.value.(extractions := s.value.extractions[id := FailedRecord(Message(e))]) && o == Raised(e))
      && (s.Ok? && id in s.value.extractions ==> db' == s.value && o == Raised(RecordNotUnique))
  {
    var s := SaveRecord(db, id, record.(status := Error, notes := Some(Message(e))), ls, x);
    var r := RescueAsWritten(db, id, record, ls, x, e);
    if s.Err? {
      assert r == (db, Raised(s.error));
    } else {
      var f := FailedRecord(Message(e));
      assert ExtractionFits(f);
      assert r == match CreateExtraction(s.value, id, f)
        case Ok(db2) => (db2, Raised(e))
        case Err(e2) => (s.value, Raised(e2));
    }
  }

  /** A reply that decodes to an object but whose transaction rolls back goes to the rescue with what the rollback left. */
  lemma ObjRollsBack(db: Db, id: Id, now: Time, data: map<string, JsonVal>, durationMs: nat, fault: Fault)
    requires Ready(db, id) && !WriteBackAccepted(Begin(db, id, now), id, data, durationMs, fault)
    ensures var db1 := Begin(db, id, now);
      var w := WriteBack(db1, id, data, durationMs, fault);
      && w.Err?
      && ProcessAsWritten(db, id, now, Obj(data), durationMs, fault)
         == RescueAsWritten(db1, id, WithExtractedFields(db1.invoices[id], data), UnsavedLines(db1, id, data, fault),
                            UnsavedExtraction(db1, id, data, durationMs, fault), w.error)
  {
    WriteBackSpec(Begin(db, id, now), id, data, durationMs, fault);
  }

  // ---------------------------------------------------------------------------
  // Where the code as written agrees with the intended behaviour, and where not.

  /**
   * With nothing left in memory to save, the two agree: a raising client, a reply
   * that is not JSON, a transaction that commits, and a reply without content for
   * an invoice that has no extraction yet.
   */
  lemma AsWrittenAgrees(db: Db, id: Id, now: Time, reply: Reply, durationMs: nat, fault: Fault)
    requires Ready(db, id)
    requires || reply.Raise? || reply.BadJson?
             || (reply.Obj? && WriteBackAccepted(Begin(db, id, now), id, reply.data, durationMs, fault))
             || (reply.NoContent? && id !in db.extractions)
    ensures ProcessAsWritten(db, id, now, reply, durationMs, fault) == Process(db, id, now, reply, durationMs, fault)
  {
    var db1 := Begin(db, id, now);
    var inv := db1.invoices[id].(status := Error);
    assert InvoiceFits(inv);
    if reply.Raise? || reply.BadJson? {
      var e := if reply.Raise? then ClientError(reply.msg) else ParseError(reply.msg);
      SaveRecordSpec(db1, id, db1.invoices[id].(status := Error, notes := Some(Message(e))), [], None);
      assert db1.lines[id := db1.lines[id] + []] == db1.lines;
    } else if reply.Obj? {
      WriteBackSpec(db1, id, reply.data, durationMs, fault);
    } else {
      assert ExtractionFits(FailedRecord(NoResponseMessage));
    }
  }

  /**
   * As written, a total beyond its column's precision leaves the invoice in
   * `extracting` with no extraction row, though the rescue is meant to mark it
   * `error`: the rescue's own save carries the same total and is refused too, so
   * only the first write remains.
   */
  lemma {:induction false} OverflowingTotalStaysExtracting(db: Db, id: Id, now: Time, data: map<string, JsonVal>, durationMs: nat, fault: Fault)
    requires Ready(db, id) && Refused(fault, 0).None?
    requires !FitsCell(CastDecimal(Get(data, "Total Amount"), 2), 12)
    ensures ProcessAsWritten(db, id, now, Obj(data), durationMs, fault) == (Begin(db, id, now), Raised(NumericOverflow))
  {
    var db1 := Begin(db, id, now);
    var record := WithExtractedFields(db1.invoices[id], data);
    assert !InvoiceFits(record);
    assert WriteBack(db1, id, data, durationMs, fault) == Err(NumericOverflow);
    ObjRollsBack(db, id, now, data, durationMs, fault);
    var stored := record.(status := Error, notes := Some(Message(NumericOverflow)));
    assert !InvoiceFits(stored);
    RescueAsWrittenSteps(db1, id, record, UnsavedLines(db1, id, data, fault),
                         UnsavedExtraction(db1, id, data, durationMs, fault), NumericOverflow);
  }

  /**
   * As written, when a line is refused the rescue stores every extracted invoice
   * field with status `error`, inserts again the lines the loop had written before
   * the refusal, and records the failed extraction.
   */
  lemma {:induction false} RescueKeepsExtractedFields(db: Db, id: Id, now: Time, data: map<string, JsonVal>, durationMs: nat, fault: Fault)
    requires Ready(db, id) && Refused(fault, 0).None?
    requires FitsCell(CastDecimal(Get(data, "Total Amount"), 2), 12)
    requires ItemsOf(Get(data, "Line Items")).Ok? && !LinesAccepted(ItemsOf(Get(data, "Line Items")).value, 1, fault)
    ensures var e := WriteBack(Begin(db, id, now), id, data, durationMs, fault);
      var items := ItemsOf(Get(data, "Line Items")).value;
      var (db', o) := ProcessAsWritten(db, id, now, Obj(data), durationMs, fault);
      && e.Err?
      && db'.invoices == db.invoices[id := WithExtractedFields(Begin(db, id, now).invoices[id], data).(
           status := Error, notes := Some(Message(e.error)))]
      && db'.lines == db.lines[id := db.lines[id] + WrittenLines(items, 1, fault)]
      && |WrittenLines(items, 1, fault)| < |items|
      && (id !in db.extractions ==>
            o == Raised(e.error) && db'.extractions == db.extractions[id := FailedRecord(Message(e.error))])
      && (id in db.extractions ==> o == Raised(RecordNotUnique) && db'.extractions == db.extractions)
  {
    var db1 := Begin(db, id, now);
    var items := ItemsOf(Get(data, "Line Items")).value;
    var record := WithExtractedFields(db1.invoices[id], data);
    ObjRollsBack(db, id, now, data, durationMs, fault);
    var e := WriteBack(db1, id, data, durationMs, fault).error;
    var stored := record.(status := Error, notes := Some(Message(e)));
    assert InvoiceFits(stored) by {
      assert InvoiceFits(record) <==> FitsCell(CastDecimal(Get(data, "Total Amount"), 2), 12);
    }
    WrittenLinesAll(items, 1, fault);
    var ls := UnsavedLines(db1, id, data, fault);
    assert ls == WrittenLines(items, 1, fault);
    assert UnsavedExtraction(db1, id, data, durationMs, fault) == None;
    SaveRecordSpec(db1, id, stored, ls, None);
    RescueAsWrittenSteps(db1, id, record, ls, None, e);
    MapOverride(db.invoices, id, db1.invoices[id], stored);
  }

  /**
   * As written, when the last write (the extraction) is refused because the
   * invoice already has one or the duration is out of range, the rescue's save
   * tries the cached extraction again and is refused the same way: the invoice
   * stays `extracting`, keeps no error note, and no line is added.
   */
  lemma RefusedExtractionStaysExtracting(db: Db, id: Id, now: Time, data: map<string, JsonVal>, durationMs: nat, fault: Fault)
    requires Ready(db, id) && ReachesExtraction(Begin(db, id, now), id, data, fault)
    requires id in db.extractions || durationMs > Int4Max
    ensures ProcessAsWritten(db, id, now, Obj(data), durationMs, fault)
      == (Begin(db, id, now), Raised(if durationMs <= Int4Max then RecordNotUnique else IntegerOutOfRange))
  {
    var db1 := Begin(db, id, now);
    ObjRollsBack(db, id, now, data, durationMs, fault);
    var e := WriteBack(db1, id, data, durationMs, fault).error;
    var record := WithExtractedFields(db1.invoices[id], data);
    var stored := record.(status := Error, notes := Some(Message(e)));
    var ls := UnsavedLines(db1, id, data, fault);
    var x := CompletedRecord(data, durationMs);
    assert UnsavedExtraction(db1, id, data, durationMs, fault) == Some(x);
    assert CreateExtraction(db1, id, x) == Err(if durationMs <= Int4Max then RecordNotUnique else IntegerOutOfRange);
    SaveRecordSpec(db1, id, stored, ls, Some(x));
    RescueAsWrittenSteps(db1, id, record, ls, Some(x), e);
  }

  /**
   * As written, when the database refuses the extraction insert for a reason of
   * its own, the rescue's save inserts that cached completed extraction after all,
   * together with the extracted fields and every line, under status `error`; its
   * failed extraction then violates the unique index, which is what `process` raises.
   */
  lemma RescueSavesRefusedExtraction(db: Db, id: Id, now: Time, data: map<string, JsonVal>, durationMs: nat, fault: Fault)
    requires Ready(db, id) && ReachesExtraction(Begin(db, id, now), id, data, fault)
    requires id !in db.extractions && durationMs <= Int4Max
    requires Refused(fault, |ItemsOf(Get(data, "Line Items")).value| + 1).Some?
    ensures var db1 := Begin(db, id, now);
      ProcessAsWritten(db, id, now, Obj(data), durationMs, fault) == (Db(
        db.invoices[id := WithExtractedFields(db1.invoices[id], data).(status := Error, notes := Some(fault.msg))],
        db.lines[id := db.lines[id] + ParsedLines(ItemsOf(Get(data, "Line Items")).value)],
        db.extractions[id := CompletedRecord(data, durationMs)]), Raised(RecordNotUnique))
  {
    var db1 := Begin(db, id, now);
    var items := ItemsOf(Get(data, "Line Items")).value;
    ObjRollsBack(db, id, now, data, durationMs, fault);
    WriteBackSpec(db1, id, data, durationMs, fault);
    var e := WriteBack(db1, id, data, durationMs, fault).error;
    var record := WithExtractedFields(db1.invoices[id], data);
    InsertLinesSpec(UpdateInvoice(db1, id, record).value, id, items, 1, fault);
    assert e == StoreError(fault.msg);
    var stored := record.(status := Error, notes := Some(Message(e)));
    var ls := UnsavedLines(db1, id, data, fault);
    var x := CompletedRecord(data, durationMs);
    assert UnsavedExtraction(db1, id, data, durationMs, fault) == Some(x);
    assert ExtractionFits(x);
    SaveRecordSpec(db1, id, stored, ls, Some(x));
    RescueAsWrittenSteps(db1, id, record, ls, Some(x), e);
    MapOverride(db.invoices, id, db1.invoices[id], stored);
  }

  /**
   * As written, a reply without content for an invoice that already has an
   * extraction: the refused failed extraction is retried by the rescue's save and
   * refused again, so the invoice keeps status `error` from the branch but no note.
   */
  lemma NoContentKeepsNoNote(db: Db, id: Id, now: Time, durationMs: nat, fault: Fault)
    requires Ready(db, id) && id in db.extractions
    ensures ProcessAsWritten(db, id, now, NoContent, durationMs, fault) == (db.(invoices := db.invoices[id :=
      db.invoices[id].(status := Error, processedAt := Some(now))]), Raised(RecordNotUnique))
  {
    var db1 := Begin(db, id, now);
    var inv := db1.invoices[id].(status := Error);
    var db2 := db1.(invoices := db1.invoices[id := inv]);
    var x := FailedRecord(NoResponseMessage);
    assert ExtractionFits(x);
    assert CreateExtraction(db2, id, x) == Err(RecordNotUnique);
    SaveRecordSpec(db2, id, inv.(status := Error, notes := Some(Message(RecordNotUnique))), [], Some(x));
    RescueAsWrittenSteps(db2, id, inv, [], Some(x), RecordNotUnique);
    MapOverride(db.invoices, id, db1.invoices[id], inv);
  }

  // ---------------------------------------------------------------------------
  // What the code as written still keeps.

  /** `db'` differs from `db` at most in the rows of invoice `id`, which keeps its rows and may gain an extraction. */
  predicate OwnRowsOnly(db: Db, db': Db, id: Id)
  {
    && db'.invoices.Keys == db.invoices.Keys
    && db'.lines.Keys == db.lines.Keys
    && db.extractions.Keys <= db'.extractions.Keys <= db.extractions.Keys + {id}
    && (forall j :: j in db.invoices && j != id ==> db'.invoices[j] == db.invoices[j])
    && (forall j :: j in db.lines && j != id ==> db'.lines[j] == db.lines[j])
    && (forall j :: j in db.extractions && j != id ==> db'.extractions[j] == db.extractions[j])
  }

  /** Rewriting the invoice's own rows, and perhaps giving it an extraction, touches no other row. */
  lemma OwnRowsUpdate(db0: Db, id: Id, inv: Invoice, ls: seq<Line>, x: Option<Extraction>)
    requires id in db0.invoices && id in db0.lines
    ensures OwnRowsOnly(db0, Db(db0.invoices[id := inv], db0.lines[id := ls],
                                if x.Some? then db0.extractions[id := x.value] else db0.extractions), id)
  {
  }

  /** The rescue as written, run on a store that differs from `db0` only in its invoice's row, writes only that invoice's rows. */
  lemma RescueAsWrittenOwnRows(db0: Db, id: Id, inv: Invoice, record: Invoice, ls: seq<Line>, x: Option<Extraction>, e: Error)
    requires id in db0.invoices && id in db0.lines
    ensures OwnRowsOnly(db0, RescueAsWritten(db0.(invoices := db0.invoices[id := inv]), id, record, ls, x, e).0, id)
  {
    var db := db0.(invoices := db0.invoices[id := inv]);
    var stored := record.(status := Error, notes := Some(Message(e)));
    SaveRecordSpec(db, id, stored, ls, x);
    RescueAsWrittenSteps(db, id, record, ls, x, e);
    var s := SaveRecord(db, id, stored, ls, x);
    MapOverride(db0.invoices, id, inv, stored);
    if s.Err? {
      OwnRowsUpdate(db0, id, inv, db0.lines[id], None);
      assert db0.lines[id := db0.lines[id]] == db0.lines;
    } else {
      var L := db0.lines[id] + ls;
      if id in s.value.extractions {
        OwnRowsUpdate(db0, id, stored, L, x);
      } else {
        var f := FailedRecord(Message(e));
        assert x.None?;
        OwnRowsUpdate(db0, id, stored, L, Some(f));
      }
    }
  }

  /** As written, `process` still changes only its own invoice's rows and keeps the schema's guarantees; it may leave the invoice without an extraction. */
  lemma AsWrittenOwnRows(db: Db, id: Id, now: Time, reply: Reply, durationMs: nat, fault: Fault)
    requires Valid(db) && id in db.invoices
    ensures Valid(ProcessAsWritten(db, id, now, reply, durationMs, fault).0)
    ensures OwnRowsOnly(db, ProcessAsWritten(db, id, now, reply, durationMs, fault).0, id)
  {
    ValidReady(db, id);
    var inv1 := db.invoices[id].(status := Extracting, processedAt := Some(now));
    assert Begin(db, id, now) == db.(invoices := db.invoices[id := inv1]);
    match reply
    case Raise(msg) => RescueAsWrittenOwnRows(db, id, inv1, inv1, [], None, ClientError(msg));
    case BadJson(msg) => RescueAsWrittenOwnRows(db, id, inv1, inv1, [], None, ParseError(msg));
    case NoContent => NoContentOwnRows(db, id, inv1);
    case Obj(data) => ObjOwnRows(db, id, now, data, durationMs, fault);
  }

  /** The branch for a reply without content. */
  lemma NoContentOwnRows(db: Db, id: Id, inv1: Invoice)
    requires Ready(db, id)
    ensures OwnRowsOnly(db, NoResponseAsWritten(db.(invoices := db.invoices[id := inv1]), id).0, id)
  {
    var db1 := db.(invoices := db.invoices[id := inv1]);
    var inv2 := inv1.(status := Error);
    MapOverride(db.invoices, id, inv1, inv2);
    var db2 := db.(invoices := db.invoices[id := inv2]);
    assert db1.(invoices := db1.invoices[id := inv2]) == db2;
    var x := FailedRecord(NoResponseMessage);
    if CreateExtraction(db2, id, x).Err? {
      RescueAsWrittenOwnRows(db, id, inv2, inv2, [], Some(x), CreateExtraction(db2, id, x).error);
    } else {
      OwnRowsUpdate(db, id, inv2, db.lines[id], Some(x));
      assert db.lines[id := db.lines[id]] == db.lines;
    }
  }

  /** A decoded reply: a commit is local as intended, a rollback goes through the rescue as written. */
  lemma ObjOwnRows(db: Db, id: Id, now: Time, data: map<string, JsonVal>, durationMs: nat, fault: Fault)
    requires Ready(db, id)
    ensures OwnRowsOnly(db, ProcessAsWritten(db, id, now, Obj(data), durationMs, fault).0, id)
  {
    var db1 := Begin(db, id, now);
    if WriteBackAccepted(db1, id, data, durationMs, fault) {
      AsWrittenAgrees(db, id, now, Obj(data), durationMs, fault);
      CommitIsLocal(db, id, now, data, durationMs, fault);
    } else {
      var inv1 := db.invoices[id].(status := Extracting, processedAt := Some(now));
      assert db1 == db.(invoices := db.invoices[id := inv1]);
      ObjRollsBack(db, id, now, data, durationMs, fault);
      RescueAsWrittenOwnRows(db, id, inv1, WithExtractedFields(inv1, data), UnsavedLines(db1, id, data, fault),
                             UnsavedExtraction(db1, id, data, durationMs, fault), WriteBack(db1, id, data, durationMs, fault).error);
    }
  }

  /** The rescue as written leaves the invoice `error` when its save is accepted, and as it found it otherwise. */
  lemma RescueAsWrittenStatus(db: Db, id: Id, record: Invoice, ls: seq<Line>, x: Option<Extraction>, e: Error)
    requires id in db.invoices && id in db.lines
    ensures id in RescueAsWritten(db, id, record, ls, x, e).0.invoices
    ensures RescueAsWritten(db, id, record, ls, x, e).0.invoices[id].status
      == if SaveRecord(db, id, record.(status := Error, notes := Some(Message(e))), ls, x).Ok? then Error else db.invoices[id].status
  {
    SaveRecordSpec(db, id, record.(status := Error, notes := Some(Message(e))), ls, x);
    RescueAsWrittenSteps(db, id, record, ls, x, e);
  }

  /**
   * As written, `process` never leaves its invoice `uploaded`: it ends in
   * `extracted` exactly when the transaction commits, and otherwise in `error`,
   * or in `extracting` when the rescue's own save is refused.
   */
  lemma AsWrittenLeavesUploaded(db: Db, id: Id, now: Time, reply: Reply, durationMs: nat, fault: Fault)
    requires Ready(db, id)
    ensures var st := ProcessAsWritten(db, id, now, reply, durationMs, fault).0.invoices[id].status;
      && (st == Extracting || st == Extracted || st == Error)
      && (st == Extracted <==> reply.Obj? && WriteBackAccepted(Begin(db, id, now), id, reply.data, durationMs, fault))
  {
    var db1 := Begin(db, id, now);
    match reply
    case Raise(msg) => RescueAsWrittenStatus(db1, id, db1.invoices[id], [], None, ClientError(msg));
    case BadJson(msg) => RescueAsWrittenStatus(db1, id, db1.invoices[id], [], None, ParseError(msg));
    case NoContent =>
      var db2 := db1.(invoices := db1.invoices[id := db1.invoices[id].(status := Error)]);
      var x := FailedRecord(NoResponseMessage);
      if CreateExtraction(db2, id, x).Err? {
        RescueAsWrittenStatus(db2, id, db2.invoices[id], [], Some(x), CreateExtraction(db2, id, x).error);
      }
    case Obj(data) => ObjStatus(db, id, now, data, durationMs, fault);
  }

  /** The same for a decoded reply. */
  lemma ObjStatus(db: Db, id: Id, now: Time, data: map<string, JsonVal>, durationMs: nat, fault: Fault)
    requires Ready(db, id)
    ensures var st := ProcessAsWritten(db, id, now, Obj(data), durationMs, fault).0.invoices[id].status;
      && (st == Extracting || st == Extracted || st == Error)
      && (st == Extracted <==> WriteBackAccepted(Begin(db, id, now), id, data, durationMs, fault))
  {
    var db1 := Begin(db, id, now);
    WriteBackSpec(db1, id, data, durationMs, fault);
    if !WriteBackAccepted(db1, id, data, durationMs, fault) {
      ObjRollsBack(db, id, now, data, durationMs, fault);
      RescueAsWrittenStatus(db1, id, WithExtractedFields(db1.invoices[id], data), UnsavedLines(db1, id, data, fault),
                            UnsavedExtraction(db1, id, data, durationMs, fault), WriteBack(db1, id, data, durationMs, fault).error);
    }
  }

  /** One invoice, a total of 10^10 (two digits too many for numeric(12,2)). */
  lemma StuckExample(now: Time)
    ensures var db := Db(map["inv-1" := NewInvoice("acct-1", None, Some("invoice.pdf"), None)], map["inv-1" := []], map[]);
      var data := map["Total Amount" := JNum(Decimal(10000000000, 0))];
      && ProcessAsWritten(db, "inv-1", now, Obj(data), 10, NoFault).0.invoices["inv-1"].status == Extracting
      && "inv-1" !in ProcessAsWritten(db, "inv-1", now, Obj(data), 10, NoFault).0.extractions
      && Process(db, "inv-1", now, Obj(data), 10, NoFault).0.invoices["inv-1"].status == Error
      && "inv-1" in Process(db, "inv-1", now, Obj(data), 10, NoFault).0.extractions
  {
    var db := Db(map["inv-1" := NewInvoice("acct-1", None, Some("invoice.pdf"), None)], map["inv-1" := []], map[]);
    var data := map["Total Amount" := JNum(Decimal(10000000000, 0))];
    assert Pow10(12) == 1000000000000 by {
      assert Pow10(2) == 100;
      assert Pow10(3) == 1000;
      Pow10Add(3, 3);
      Pow10Add(6, 6);
    }
    NewInvoiceFits("acct-1", None, Some("invoice.pdf"), None);
    assert !FitsCell(CastDecimal(Get(data, "Total Amount"), 2), 12);
    OverflowingTotalStaysExtracting(db, "inv-1", now, data, 10, NoFault);
    ProcessSettles(db, "inv-1", now, Obj(data), 10, NoFault);
  }
}
