/**
 * The database as an object the pipeline writes through: the three tables as
 * fields, each ActiveRecord call as a method that either applies its single-row
 * write or leaves every table as it was and reports the error.
 */
module Persistence {
  import opened Wrappers
  import opened Schema

  /** The store after a write that was accepted (`Ok`) or refused (`Err`). */
  function Applied(r: Result<Db, Error>, db: Db): (s: Db)
    ensures r.Ok? ==> s == r.value
    ensures r.Err? ==> s == db
  {
    if r.Ok? then r.value else db
  }

  /** The error a refused write raises, if any. */
  function ErrorOf(r: Result<Db, Error>): (e: Option<Error>)
    ensures e.None? <==> r.Ok?
    ensures e.Some? ==> e.value == r.error
  {
    if r.Ok? then None else Some(r.error)
  }

  class Store {
    var invoices: map<Id, Invoice>
    var lines: map<Id, seq<Line>>
    var extractions: map<Id, Extraction>

    function State(): Db
      reads this
    {
      Db(invoices, lines, extractions)
    }

    predicate Valid()
      reads this
    {
      Schema.Valid(State())
    }

    constructor ()
      ensures State() == EmptyDb && Valid()
    {
      invoices := map[];
      lines := map[];
      extractions := map[];
    }

    /** `Invoice.find(id)`: the row, or RecordNotFound. */
    method Find(id: Id) returns (r: Result<Invoice, Error>)
      ensures r.Ok? <==> id in State().invoices
      ensures r.Ok? ==> r.value == State().invoices[id]
      ensures r.Err? ==> r.error == NotFound(id)
    {
      if id in invoices {
        r := Ok(invoices[id]);
      } else {
        r := Err(NotFound(id));
      }
    }

    /** Saving a new invoice row under `id`. */
    method CreateInvoice(id: Id, inv: Invoice) returns (err: Option<Error>)
      modifies this
      ensures State() == Applied(Schema.CreateInvoice(old(State()), id, inv), old(State()))
      ensures err == ErrorOf(Schema.CreateInvoice(old(State()), id, inv))
    {
      var r := Schema.CreateInvoice(State(), id, inv);
      if r.Ok? {
        invoices, lines, extractions := r.value.invoices, r.value.lines, r.value.extractions;
      }
      err := ErrorOf(r);
    }

    /** An `update!` of values that fit their columns: status, timestamps and notes. */
    method Assign(id: Id, inv: Invoice)
      requires id in invoices
      modifies this
      ensures State() == old(State()).(invoices := old(State()).invoices[id := inv])
    {
      invoices := invoices[id := inv];
    }

    /** `invoice.update!` with values that may overflow their columns. */
    method UpdateInvoice(id: Id, inv: Invoice) returns (err: Option<Error>)
      requires id in invoices
      modifies this
      ensures State() == Applied(Schema.UpdateInvoice(old(State()), id, inv), old(State()))
      ensures err == ErrorOf(Schema.UpdateInvoice(old(State()), id, inv))
    {
      if InvoiceFits(inv) {
        invoices := invoices[id := inv];
        err := None;
      } else {
        err := Some(NumericOverflow);
      }
    }

    /** `invoice.invoice_lines.create!`. */
    method CreateLine(id: Id, l: Line) returns (err: Option<Error>)
      requires id in invoices
      modifies this
      ensures State() == Applied(Schema.CreateLine(old(State()), id, l), old(State()))
      ensures err == ErrorOf(Schema.CreateLine(old(State()), id, l))
    {
      if LineFits(l) {
        lines := lines[id := LinesOf(State(), id) + [l]];
        err := None;
      } else {
        err := Some(NumericOverflow);
      }
    }

    /** `Extraction.create!(invoice: …)`. */
    method CreateExtraction(id: Id, x: Extraction) returns (err: Option<Error>)
      requires id in invoices
      modifies this
      ensures State() == Applied(Schema.CreateExtraction(old(State()), id, x), old(State()))
      ensures err == ErrorOf(Schema.CreateExtraction(old(State()), id, x))
    {
      if !DurationFits(x.durationMs) {
        err := Some(IntegerOutOfRange);
      } else if !FitsCell(x.confidence, ConfidencePrecision) || !FitsCell(x.costUsd, CostPrecision) {
        err := Some(NumericOverflow);
      } else if id in extractions {
        err := Some(RecordNotUnique);
      } else {
        extractions := extractions[id := x];
        err := None;
      }
    }

    /** `invoice.destroy`, cascading to its lines and its extraction. */
    method Destroy(id: Id)
      modifies this
      ensures State() == Schema.Destroy(old(State()), id)
    {
      invoices, lines, extractions := invoices - {id}, lines - {id}, extractions - {id};
    }

    /** The rollback of a transaction: every table back to the snapshot taken when it began. */
    method Restore(snapshot: Db)
      modifies this
      ensures State() == snapshot
    {
      invoices, lines, extractions := snapshot.invoices, snapshot.lines, snapshot.extractions;
    }
  }
}
