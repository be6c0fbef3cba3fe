/**
 * ProcessInvoiceJob#perform as a function of the store: find the invoice, return
 * unless it is `uploaded`, otherwise hand it to `process`; and what the queue can
 * rely on across repeated deliveries of the job, over the corrected `process`
 * (`Perform`) and over `process` as written (`PerformAsWritten`).
 */
module Job {
  import opened Wrappers
  import opened Json
  import opened Schema
  import opened Processing
  import opened Rollback

  /** The guard: the invoice exists and is still `uploaded`. */
  predicate PassesGuard(db: Db, id: Id)
  {
    id in db.invoices && db.invoices[id].status == Uploaded
  }

  /** `perform(invoice_id)`; there is no rescue, so whatever `process` raises leaves `perform` too. */
  function Perform(db: Db, id: Id, now: Time, reply: Reply, durationMs: nat, fault: Fault): (r: (Db, Outcome))
    ensures Valid(db) ==> Valid(r.0)
    ensures !PassesGuard(db, id) ==> r.0 == db
  {
    if id !in db.invoices then (db, Raised(NotFound(id)))
    else if db.invoices[id].status != Uploaded then (db, Returned)
    else Process(db, id, now, reply, durationMs, fault)
  }

  /** The model calls one `perform` makes: one request for the invoice's document past the guard, none otherwise. */
  function Requests(db: Db, id: Id): (r: seq<Request>)
    ensures |r| <= 1
    ensures |r| == 1 <==> PassesGuard(db, id)
    ensures PassesGuard(db, id) ==> r[0].imageUrl == db.invoices[id].fileUrl && r[0].prompt == Prompt
  {
    if PassesGuard(db, id) then [RequestFor(db.invoices[id])] else []
  }

  /** A missing id raises from `find` and changes nothing; an invoice past `uploaded` is left exactly as it is. */
  lemma PerformGuard(db: Db, id: Id, now: Time, reply: Reply, durationMs: nat, fault: Fault)
    ensures id !in db.invoices ==> Perform(db, id, now, reply, durationMs, fault) == (db, Raised(NotFound(id)))
    ensures id in db.invoices && db.invoices[id].status != Uploaded ==>
      Perform(db, id, now, reply, durationMs, fault) == (db, Returned) && Requests(db, id) == []
  {
  }

  /**
   * Past the guard, `perform` is `process` on that invoice, its outcome included
   * (what `process` raises, `perform` raises unchanged), and the store always changes:
   * the invoice leaves `uploaded`. So the store changes exactly when the guard passes.
   */
  lemma PerformChangesIffGuard(db: Db, id: Id, now: Time, reply: Reply, durationMs: nat, fault: Fault)
    requires Valid(db)
    ensures PassesGuard(db, id) ==> Perform(db, id, now, reply, durationMs, fault) == Process(db, id, now, reply, durationMs, fault)
    ensures Perform(db, id, now, reply, durationMs, fault).0 != db <==> PassesGuard(db, id)
  {
    if PassesGuard(db, id) {
      ValidReady(db, id);
      ProcessSettles(db, id, now, reply, durationMs, fault);
    }
  }

  /** After any `perform`, a second delivery of the same job finds nothing to do and changes nothing. */
  lemma {:induction false} PerformIdempotent(db: Db, id: Id, now: Time, reply: Reply, durationMs: nat, fault: Fault,
                                            now2: Time, reply2: Reply, durationMs2: nat, fault2: Fault)
    requires Valid(db)
    ensures var db1 := Perform(db, id, now, reply, durationMs, fault).0;
      && !PassesGuard(db1, id)
      && Perform(db1, id, now2, reply2, durationMs2, fault2).0 == db1
      && (id in db.invoices ==> Perform(db1, id, now2, reply2, durationMs2, fault2).1 == Returned)
      && Requests(db1, id) == []
  {
    if PassesGuard(db, id) {
      ValidReady(db, id);
      ProcessSettles(db, id, now, reply, durationMs, fault);
    }
  }

  /**
   * `perform` touches only its own invoice, that invoice's lines and its extraction
   * (`Local`), and keeps every schema guarantee; turned away by the guard it touches nothing.
   */
  lemma PerformIsLocal(db: Db, id: Id, now: Time, reply: Reply, durationMs: nat, fault: Fault)
    requires Valid(db)
    ensures var db' := Perform(db, id, now, reply, durationMs, fault).0;
      && Valid(db')
      && (PassesGuard(db, id) ==> Local(db, db', id))
      && (!PassesGuard(db, id) ==> db' == db)
  {
    if PassesGuard(db, id) {
      ValidReady(db, id);
      ProcessFrame(db, id, now, reply, durationMs, fault);
    }
  }

  /** No invoice still waiting in `uploaded` has had an extraction attempt recorded. */
  predicate AttemptsRecorded(db: Db)
  {
    forall id :: id in db.invoices && db.invoices[id].status == Uploaded ==> id !in db.extractions
  }

  /** A freshly uploaded invoice keeps the store in that state. */
  lemma UploadKeepsAttemptsRecorded(db: Db, id: Id, accountId: Id, poId: Option<Id>, fileUrl: Option<string>, notes: Option<string>)
    requires Valid(db) && AttemptsRecorded(db)
    ensures var r := CreateInvoice(db, id, NewInvoice(accountId, poId, fileUrl, notes));
      r.Ok? ==> Valid(r.value) && AttemptsRecorded(r.value) && PassesGuard(r.value, id)
  {
  }

  /** A step that touches only the rows of `id` and moves `id` out of `uploaded` keeps the store in that state. */
  lemma AttemptsRecordedStep(db: Db, db': Db, id: Id)
    requires AttemptsRecorded(db) && OwnRowsOnly(db, db', id)
    requires id in db'.invoices && db'.invoices[id].status != Uploaded
    ensures AttemptsRecorded(db')
  {
    forall j | j in db'.invoices && db'.invoices[j].status == Uploaded
      ensures j !in db'.extractions
    {
      assert db'.invoices[j] == db.invoices[j];
    }
  }

  /** So does every `perform`. */
  lemma PerformKeepsAttemptsRecorded(db: Db, id: Id, now: Time, reply: Reply, durationMs: nat, fault: Fault)
    requires Valid(db) && AttemptsRecorded(db)
    ensures AttemptsRecorded(Perform(db, id, now, reply, durationMs, fault).0)
  {
    if PassesGuard(db, id) {
      ValidReady(db, id);
      ProcessOwnRows(db, id, now, reply, durationMs, fault);
      ProcessFrame(db, id, now, reply, durationMs, fault);
      AttemptsRecordedStep(db, Process(db, id, now, reply, durationMs, fault).0, id);
    }
  }

  /** What one attempt records, for an invoice with no extraction yet. */
  predicate RecordsAttempt(db: Db, id: Id, reply: Reply, durationMs: nat, fault: Fault, db': Db, o: Outcome)
    requires id in db'.extractions
  {
    && (db'.extractions[id].status == Completed <==> reply.Obj? && WriteBackAccepted(db, id, reply.data, durationMs, fault))
    && (o == Returned <==> reply.NoContent? || (reply.Obj? && WriteBackAccepted(db, id, reply.data, durationMs, fault)))
    && (o.Raised? ==> db'.extractions[id] == FailedRecord(Message(o.error)))
    && (reply.Raise? ==> o == Raised(ClientError(reply.msg)))
    && (reply.BadJson? ==> o == Raised(ParseError(reply.msg)))
  }

  lemma FailureRecorded(db: Db, id: Id, now: Time, reply: Reply, durationMs: nat, fault: Fault)
    requires Ready(db, id) && id !in db.extractions && (reply.Raise? || reply.BadJson?)
    ensures var (db', o) := Process(db, id, now, reply, durationMs, fault);
      id in db'.extractions && RecordsAttempt(db, id, reply, durationMs, fault, db', o)
  {
    ProcessFailsOnError(db, id, now, reply, durationMs, fault);
  }

  lemma NoContentRecorded(db: Db, id: Id, now: Time, durationMs: nat, fault: Fault)
    requires Ready(db, id) && id !in db.extractions
    ensures var (db', o) := Process(db, id, now, NoContent, durationMs, fault);
      id in db'.extractions && RecordsAttempt(db, id, NoContent, durationMs, fault, db', o)
  {
    ProcessOnNoContent(db, id, now, durationMs, fault);
  }

  lemma ObjRecorded(db: Db, id: Id, now: Time, data: map<string, JsonVal>, durationMs: nat, fault: Fault)
    requires Ready(db, id) && id !in db.extractions
    ensures var (db', o) := Process(db, id, now, Obj(data), durationMs, fault);
      id in db'.extractions && RecordsAttempt(db, id, Obj(data), durationMs, fault, db', o)
  {
    if WriteBackAccepted(db, id, data, durationMs, fault) {
      ProcessSucceeds(db, id, now, data, durationMs, fault);
    } else {
      ProcessRollsBack(db, id, now, data, durationMs, fault);
    }
  }

  /**
   * In a store where waiting invoices have no extraction, each attempt the guard
   * lets through records exactly one new extraction, for its own invoice: a
   * completed one exactly when the transaction commits. The attempt returns
   * normally exactly on a commit or an empty reply; when it raises, the failed
   * record carries the message of the error raised, which for a client or decode
   * failure is that failure.
   */
  lemma OneExtractionPerAttempt(db: Db, id: Id, now: Time, reply: Reply, durationMs: nat, fault: Fault)
    requires Valid(db) && AttemptsRecorded(db) && PassesGuard(db, id)
    ensures var (db', o) := Perform(db, id, now, reply, durationMs, fault);
      && id !in db.extractions
      && db'.extractions.Keys == db.extractions.Keys + {id}
      && (db'.extractions[id].status == Completed <==> reply.Obj? && WriteBackAccepted(db, id, reply.data, durationMs, fault))
      && (o == Returned <==> reply.NoContent? || (reply.Obj? && WriteBackAccepted(db, id, reply.data, durationMs, fault)))
      && (o.Raised? ==> db'.extractions[id] == FailedRecord(Message(o.error)))
      && (reply.Raise? ==> o == Raised(ClientError(reply.msg)))
      && (reply.BadJson? ==> o == Raised(ParseError(reply.msg)))
  {
    ValidReady(db, id);
    ProcessFrame(db, id, now, reply, durationMs, fault);
    match reply
    case Raise(_) => FailureRecorded(db, id, now, reply, durationMs, fault);
    case BadJson(_) => FailureRecorded(db, id, now, reply, durationMs, fault);
    case NoContent => NoContentRecorded(db, id, now, durationMs, fault);
    case Obj(data) => ObjRecorded(db, id, now, data, durationMs, fault);
  }

  // ---------------------------------------------------------------------------
  // The same job over `process` as the code is written.

  /** `perform(invoice_id)` handing the invoice to `process` as written. */
  function PerformAsWritten(db: Db, id: Id, now: Time, reply: Reply, durationMs: nat, fault: Fault): (r: (Db, Outcome))
    ensures Valid(db) ==> Valid(r.0)
    ensures !PassesGuard(db, id) ==> r.0 == db
  {
    if id !in db.invoices then (db, Raised(NotFound(id)))
    else if db.invoices[id].status != Uploaded then (db, Returned)
    else ProcessAsWritten(db, id, now, reply, durationMs, fault)
  }

  /** As written too, `perform` past the guard is `process`, and it changes the store exactly when the guard passes. */
  lemma PerformAsWrittenChangesIffGuard(db: Db, id: Id, now: Time, reply: Reply, durationMs: nat, fault: Fault)
    requires Valid(db)
    ensures PassesGuard(db, id) ==>
      PerformAsWritten(db, id, now, reply, durationMs, fault) == ProcessAsWritten(db, id, now, reply, durationMs, fault)
    ensures PerformAsWritten(db, id, now, reply, durationMs, fault).0 != db <==> PassesGuard(db, id)
  {
    if PassesGuard(db, id) {
      ValidReady(db, id);
      AsWrittenLeavesUploaded(db, id, now, reply, durationMs, fault);
    }
  }

  /** As written too, a second delivery of the same job finds nothing to do and changes nothing. */
  lemma {:induction false} PerformAsWrittenIdempotent(db: Db, id: Id, now: Time, reply: Reply, durationMs: nat, fault: Fault,
                                                     now2: Time, reply2: Reply, durationMs2: nat, fault2: Fault)
    requires Valid(db)
    ensures var db1 := PerformAsWritten(db, id, now, reply, durationMs, fault).0;
      && !PassesGuard(db1, id)
      && PerformAsWritten(db1, id, now2, reply2, durationMs2, fault2).0 == db1
      && (id in db.invoices ==> PerformAsWritten(db1, id, now2, reply2, durationMs2, fault2).1 == Returned)
      && Requests(db1, id) == []
  {
    if PassesGuard(db, id) {
      ValidReady(db, id);
      AsWrittenLeavesUploaded(db, id, now, reply, durationMs, fault);
    }
  }

  /** As written, `perform` keeps the schema's guarantees and touches only its own invoice's rows, or nothing when the guard stops it. */
  lemma PerformAsWrittenIsLocal(db: Db, id: Id, now: Time, reply: Reply, durationMs: nat, fault: Fault)
    requires Valid(db)
    ensures var db' := PerformAsWritten(db, id, now, reply, durationMs, fault).0;
      && Valid(db')
      && (PassesGuard(db, id) ==> OwnRowsOnly(db, db', id))
      && (!PassesGuard(db, id) ==> db' == db)
  {
    if PassesGuard(db, id) {
      AsWrittenOwnRows(db, id, now, reply, durationMs, fault);
    }
  }

  /** As written too, every `perform` keeps every `uploaded` invoice free of extractions. */
  lemma PerformAsWrittenKeepsAttemptsRecorded(db: Db, id: Id, now: Time, reply: Reply, durationMs: nat, fault: Fault)
    requires Valid(db) && AttemptsRecorded(db)
    ensures AttemptsRecorded(PerformAsWritten(db, id, now, reply, durationMs, fault).0)
  {
    if PassesGuard(db, id) {
      ValidReady(db, id);
      AsWrittenLeavesUploaded(db, id, now, reply, durationMs, fault);
      AsWrittenOwnRows(db, id, now, reply, durationMs, fault);
      AttemptsRecordedStep(db, ProcessAsWritten(db, id, now, reply, durationMs, fault).0, id);
    }
  }
}
