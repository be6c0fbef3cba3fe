/**
 * InvoiceProcessor as the object the job creates: it owns a model client and runs
 * `process` step by step against the store, its transaction as snapshot and
 * restore. Each method is proved to do what the function of the same name in
 * `Processing` describes.
 */
module Services {
  import opened Wrappers
  import opened Json
  import opened Schema
  import opened Processing
  import opened Persistence

  /**
   * The chat client: it keeps the requests it was sent. What the service answers
   * is not computed here; it is handed in as `reply`.
   */
  class ModelClient {
    var sent: seq<Request>

    constructor ()
      ensures sent == []
    {
      sent := [];
    }

    method Chat(req: Request, reply: Reply) returns (r: Reply)
      modifies this
      ensures sent == old(sent) + [req]
      ensures r == reply
    {
      sent := sent + [req];
      r := reply;
    }
  }

  class InvoiceProcessor {
    const client: ModelClient

    /** `InvoiceProcessor.new` builds its own client. */
    constructor ()
      ensures fresh(client) && client.sent == []
    {
      client := new ModelClient();
    }

    /**
     * `process(invoice)`: the store ends as `Processing.Process` says, and the
     * model was called exactly once, with the prompt and the invoice's document.
     */
    method Process(store: Store, id: Id, now: Time, reply: Reply, durationMs: nat, fault: Fault) returns (o: Outcome)
      requires id in store.invoices
      modifies store, client
      ensures (store.State(), o) == Processing.Process(old(store.State()), id, now, reply, durationMs, fault)
      ensures client.sent == old(client.sent) + [RequestFor(old(store.invoices[id]))]
      ensures old(store.Valid()) ==> store.Valid()
    {
      ghost var db := store.State();
      var inv := store.invoices[id];
      store.Assign(id, inv.(status := Extracting, processedAt := Some(now)));
      assert store.State() == Begin(db, id, now);
      var response := client.Chat(RequestFor(inv), reply);
      match response
      case Raise(msg) =>
        o := Rescue(store, id, ClientError(msg));
      case BadJson(msg) =>
        o := Rescue(store, id, ParseError(msg));
      case NoContent =>
        o := NoResponse(store, id);
      case Obj(data) =>
        var err := WriteBack(store, id, data, durationMs, fault);
        if err.None? {
          o := Returned;
        } else {
          o := Rescue(store, id, err.value);
        }
    }

    /** The `else` branch: status `error`, a failed extraction, no raise unless the insert fails. */
    method NoResponse(store: Store, id: Id) returns (o: Outcome)
      requires id in store.invoices
      modifies store
      ensures (store.State(), o) == Processing.NoResponse(old(store.State()), id)
    {
      store.Assign(id, store.invoices[id].(status := Error));
      var err := store.CreateExtraction(id, FailedRecord(NoResponseMessage));
      if err.None? {
        o := Returned;
      } else {
        o := Rescue(store, id, err.value);
      }
    }

    /** The `rescue` clause: status `error`, the message into notes, a failed extraction, then raise. */
    method Rescue(store: Store, id: Id, e: Error) returns (o: Outcome)
      requires id in store.invoices
      modifies store
      ensures store.State() == Processing.Rescue(old(store.State()), id, e).0
      ensures o == Processing.Rescue(old(store.State()), id, e).1
    {
      var msg := Message(e);
      store.Assign(id, store.invoices[id].(status := Error, notes := Some(msg)));
      var err := store.CreateExtraction(id, FailedRecord(msg));
      if err.None? {
        o := Raised(e);
      } else {
        o := Raised(err.value);
      }
    }

    /**
     * The transaction block: the invoice update, one line per item in order, the
     * completed extraction; on the first error every table is restored to the
     * snapshot taken at its start.
     */
    method WriteBack(store: Store, id: Id, data: map<string, JsonVal>, durationMs: nat, fault: Fault)
      returns (err: Option<Error>)
      requires id in store.invoices
      modifies store
      ensures var r := Processing.WriteBack(old(store.State()), id, data, durationMs, fault);
        err == ErrorOf(r) && store.State() == Applied(r, old(store.State()))
    {
      var snapshot := store.State();
      err := Refused(fault, 0);
      if err.None? {
        err := store.UpdateInvoice(id, WithExtractedFields(store.invoices[id], data));
      }
      if err.None? {
        var v := ItemsOf(Get(data, LineItemsKey));
        if v.Err? {
          err := Some(v.error);
        } else {
          var items := v.value;
          err := InsertEach(store, id, items, fault);
          if err.None? {
            err := Refused(fault, |items| + 1);
          }
          if err.None? {
            err := store.CreateExtraction(id, CompletedRecord(data, durationMs));
          }
        }
      }
      if err.Some? {
        store.Restore(snapshot);
      }
    }

    /** `data['Line Items']&.each`: one `create!` per item, stopping at the first raise. */
    method InsertEach(store: Store, id: Id, items: seq<JsonVal>, fault: Fault) returns (err: Option<Error>)
      requires id in store.invoices
      modifies store
      ensures var r := InsertLines(old(store.State()), id, items, 1, fault);
        err == ErrorOf(r) && (r.Ok? ==> store.State() == r.value)
      ensures store.invoices == old(store.invoices)
    {
      ghost var target := InsertLines(store.State(), id, items, 1, fault);
      err := None;
      var k := 0;
      while k < |items| && err.None?
        invariant 0 <= k <= |items|
        invariant store.invoices == old(store.invoices)
        invariant err.None? ==> InsertLines(store.State(), id, items[k..], k + 1, fault) == target
        invariant err.Some? ==> err == ErrorOf(target)
        decreases |items| - k, err.None?
      {
        ghost var db := store.State();
        InsertLinesTurn(db, id, items, k, fault);
        var line := LineOf(items[k]);
        if line.Err? {
          err := Some(line.error);
        } else {
          err := Refused(fault, k + 1);
          if err.None? {
            err := store.CreateLine(id, line.value);
            assert err.None? ==> store.State() == CreateLine(db, id, line.value).value;
          }
        }
        k := k + 1;
      }
      assert err.None? ==> items[k..] == [];
    }
  }
}
