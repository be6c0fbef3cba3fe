/**
 * ProcessInvoiceJob as the object the queue runs: `perform` looks the invoice up
 * in the store, stops unless it is `uploaded`, and otherwise runs a new
 * InvoiceProcessor on it.
 */
module Jobs {
  import opened Wrappers
  import opened Schema
  import opened Processing
  import opened Persistence
  import opened Services
  import Job

  class ProcessInvoiceJob {
    constructor ()
    {
    }

    /**
     * `perform(invoice_id)`: the store and the outcome are those of `Job.Perform`,
     * and `sent` lists the model calls made, which `Job.Requests` predicts: one
     * past the guard, none otherwise.
     */
    method Perform(store: Store, id: Id, now: Time, reply: Reply, durationMs: nat, fault: Fault)
      returns (o: Outcome, sent: seq<Request>)
      modifies store
      ensures (store.State(), o) == Job.Perform(old(store.State()), id, now, reply, durationMs, fault)
      ensures sent == Job.Requests(old(store.State()), id)
      ensures old(store.Valid()) ==> store.Valid()
    {
      var found := store.Find(id);
      if found.Err? {
        o, sent := Raised(found.error), [];
        return;
      }
      if found.value.status != Uploaded {
        o, sent := Returned, [];
        return;
      }
      var processor := new InvoiceProcessor();
      o := processor.Process(store, id, now, reply, durationMs, fault);
      sent := processor.client.sent;
    }
  }
}
