# Invoice extraction pipeline, modelled in Dafny

This project models the part of invoice_ai that extracts an uploaded invoice:

- `ProcessInvoiceJob#perform` finds the invoice. It stops unless the invoice is still `uploaded`, and otherwise hands it to `InvoiceProcessor#process`.
- `InvoiceProcessor#process` works in these steps:
  - It sets the invoice to `extracting` and stamps `processed_at`.
  - It asks the chat model for the invoice fields, giving it the document URL and a fixed prompt.
  - It decodes the JSON content of the reply.
  - In one transaction it does three writes: it updates the invoice to `extracted` with the extracted fields, appends one `invoice_lines` row per line item, and inserts a `completed` extraction row.
  - When the reply has no content, it sets the invoice to `error` and records a failed extraction.
  - Any error raised along the way reaches the `rescue`. It sets `error`, writes the message into `notes`, records a failed extraction and raises again.
- The data it works on is the `invoices`, `invoice_lines` and `extractions` tables of `db/schema.rb`, together with the Invoice model's status enum and associations.

The modules follow the program's structure:

- `Wrappers`: `Option` and `Result`.
- `Json`: decoded JSON values, a missing key reading as nil, Ruby's `String#[]` with a string argument, `blank?`, `String#to_d` and `Integer#to_s`.
- `Schema`:
  - the rows of the three tables;
  - the status enum;
  - column defaults;
  - the fixed-point columns with their precision and their rounding, `numeric(12,2)` and the like;
  - the single-row writes the database accepts or refuses: primary key, foreign keys, unique index on `extractions.invoice_id`, integer range and numeric overflow;
  - the `dependent: :destroy` cascade.
- `Processing`:
  - `process` as a function of the store and of an oracle for the model's reply (`Reply`);
  - an oracle for writes the database refuses for its own reasons (`Fault`);
  - the lemmas about both.
- `Job`: `perform` as a function, and what the queue can rely on across deliveries. These properties are proved both over the corrected `process` (`Job.Perform`) and over `process` as written (`Job.PerformAsWritten`).
- `Rollback`: `process` exactly as the code is written (`Rollback.ProcessAsWritten`). After a rollback, ActiveRecord leaves three things in memory: the values the transaction assigned to the invoice, the lines `invoice_lines.create!` added to the association, and the extraction `Extraction.create!` cached on the invoice. The rescue's `update!` saves all three again.
- `Persistence`, `Services`, `Jobs`: the imperative side, proved equal to the functions above.
  - `Persistence.Store` is the database object.
  - `Services.InvoiceProcessor` owns the `ModelClient` it builds. It runs `process` step by step, its transaction as snapshot and restore, and its `each` loop as a `while` loop.
  - `Jobs.ProcessInvoiceJob` is the queued job.
- `Scenarios`: worked runs. They cover a good reply, a timeout, a reply that is not JSON, an invoice already extracted, `process` run twice, and a line item that cannot be indexed. The last two are shown both as intended and as written.

`Processing.Process` is `process` as evidently intended: its rescue starts from the rows as they were before the transaction. Everything built on it is the corrected program too: the lemmas about it in `Processing`, the `Job` members without "AsWritten" in their names, `Services.InvoiceProcessor`, `Jobs.ProcessInvoiceJob` and the scenarios without "AsWritten" in their names. The code as written is `Rollback.ProcessAsWritten`. `Rollback.AsWrittenAgrees` says where the two agree, and "## Findings" says where they differ.

Three consequences of the code are easy to miss:

- A successful extraction appends its lines to those already stored; it does not replace them.
- `extractions.invoice_id` has a unique index, and `Invoice` `has_one :extraction`. So an invoice holds at most one extraction row, and a second attempt's insert raises `RecordNotUnique`.
- The job's status guard is what stops a second extraction. `process` itself has no guard: run again on an invoice that already has an extraction, the corrected model rolls back and ends in `error` (`Scenarios.ScenarioProcessAgain`). As written, it stays `extracting` (`Scenarios.ScenarioProcessAgainAsWritten`).

## Model

| member | source | states |
|---|---|---|
| Schema.ParseStatus | app/models/invoice.rb:7 | a stored status string is read back as a status exactly when it is one of the seven enum names, and then it is the status of that name |
| Schema.StatusRoundTrip | app/models/invoice.rb:7 | every status written as its name reads back as itself |
| Schema.NewInvoice | db/schema.rb:65-80 | a new invoice row is `uploaded`, in currency `INR`, with discrepancy 0, no extracted data, no total and no processing time; account, purchase order, document and notes are as given |
| Schema.NewInvoiceFits | db/schema.rb:73-78 | the defaults of a new invoice fit their numeric columns |
| Schema.RoundingIsNearest | db/schema.rb:73 | a JSON number stored in a decimal column of a given scale is within half a unit of that scale of the number |
| Schema.RoundExact | db/schema.rb:73 | a number the column's scale represents exactly is stored unchanged |
| Schema.CreateInvoice | db/schema.rb:65-85 | a new invoice is accepted exactly when its id is new and its amounts fit; it then has an empty set of lines, and the schema's guarantees are kept |
| Schema.UpdateInvoice | db/schema.rb:73-78 | `update!` replaces the row exactly when its amounts fit, and otherwise raises numeric overflow with nothing changed |
| Schema.CreateLine | db/schema.rb:53-63 | a line is appended to its invoice's lines exactly when quantity, unit price and total fit their columns; otherwise numeric overflow with nothing changed |
| Schema.CreateExtraction | db/schema.rb:26-39 | an extraction is inserted exactly when the invoice has none and its duration and decimals fit; a second one for the same invoice raises `RecordNotUnique` |
| Schema.Destroy | app/models/invoice.rb:4-5 | destroying an invoice removes it, all its lines and its extraction, and leaves every other row as it was |
| Json.StringIndex | app/services/invoice_processor.rb:74-78 | indexing a string item with a key gives the key itself when it occurs in the string, and nil otherwise |
| Processing.InsertLines | app/services/invoice_processor.rb:72-80 | the `each` loop over the line items keeps the schema's guarantees |
| Processing.ParsedLines | app/services/invoice_processor.rb:72-80 | the items become one line each, in their order |
| Processing.InsertLinesSpec | app/services/invoice_processor.rb:72-80 | the loop succeeds exactly when every item converts, fits and is written, and it then appends exactly the parsed lines to the invoice's lines |
| Processing.LineFromObject | app/services/invoice_processor.rb:73-79 | an object item fills each line column from its exact key: a string as given into a text column, a number rounded to its column's scale. An absent key leaves the column NULL |
| Processing.LineFromString | app/services/invoice_processor.rb:73-79 | a string item is indexed by substring. Description and SKU hold their own key names, and quantity, unit price and total hold 0, exactly when the string contains the key; every other column is NULL |
| Processing.LineFromScalar | app/services/invoice_processor.rb:73-79 | an item that is neither an object nor a string cannot be indexed, so the line list holding it is not accepted |
| Processing.WriteBack | app/services/invoice_processor.rb:58-92 | the transaction keeps the schema's guarantees |
| Processing.WriteBackSpec | app/services/invoice_processor.rb:58-92 | the transaction commits exactly when every write is accepted; it then stores the extracted fields with status `extracted`, appends the parsed lines and adds the completed extraction, and changes nothing else |
| Processing.Begin | app/services/invoice_processor.rb:11 | setting `extracting` and the processing time keeps the schema's guarantees |
| Processing.Rescue | app/services/invoice_processor.rb:102-109 | the rescue always raises and keeps the schema's guarantees |
| Processing.RescueSpec | app/services/invoice_processor.rb:102-109 | the rescue sets `error` with the message in notes, leaves the lines alone, and adds a failed extraction carrying the message, or raises `RecordNotUnique` when one exists |
| Processing.NoResponse | app/services/invoice_processor.rb:93-100 | the empty-reply branch keeps the schema's guarantees |
| Processing.NoResponseSpec | app/services/invoice_processor.rb:93-100 | with no content the invoice becomes `error`, a failed extraction with the fixed message is added, the lines stay, and the call returns |
| Processing.Process | app/services/invoice_processor.rb:10-110 | `process` keeps the schema's guarantees and never removes its invoice |
| Processing.ProcessSucceeds | app/services/invoice_processor.rb:55-92 | a decoded reply whose writes are all accepted leaves the invoice `extracted`, with each field from its exact key, the parsed lines appended, and a completed extraction recording the model, prompt, response, confidence 0.95 and duration; the call returns |
| Processing.ProcessRollsBack | app/services/invoice_processor.rb:58-109 | a refused write inside the transaction undoes all of it. The invoice becomes `error` with the time and notes, its lines are unchanged, and the call raises. A failed extraction carries the message when the invoice had none; otherwise the call raises `RecordNotUnique` |
| Processing.ProcessFailsOnError | app/services/invoice_processor.rb:34-56 | a client error or a JSON decode error leaves the invoice `error` with that message in notes and a failed extraction with it, and is re-raised |
| Processing.ProcessOnNoContent | app/services/invoice_processor.rb:93-100 | a reply without content leaves the invoice `error` with a failed extraction and returns normally |
| Processing.ProcessOwnRows | app/services/invoice_processor.rb:10-110 | every path stamps the time, gives the invoice an extraction, and only appends lines; the status is `extracted` exactly on a commit, and `error` with untouched lines otherwise |
| Processing.ProcessFrame | app/services/invoice_processor.rb:10-110 | `process` changes only the rows of its own invoice, and adds that invoice's extraction |
| Processing.ProcessSettles | app/services/invoice_processor.rb:10-110 | `process` always ends in `extracted` or `error`: `extracted` exactly when the reply decoded and the transaction committed; `error` whenever it raises, and then the lines are unchanged |
| Processing.ProcessIsLocal | app/services/invoice_processor.rb:10-110 | `process` keeps the schema's guarantees, adds no invoice and changes no other invoice's rows |
| Rollback.WrittenLines | app/services/invoice_processor.rb:72-80 | the lines the loop inserted before it stopped are the converted items of the accepted prefix, in order, and the next item is the one that was refused |
| Rollback.WrittenLinesAll | app/services/invoice_processor.rb:72-80 | the loop inserts every item exactly when every line is accepted, and then its lines are the parsed lines |
| Rollback.WrittenLinesInserted | app/services/invoice_processor.rb:72-80 | the written lines are exactly what the loop appends when run on the accepted prefix alone |
| Rollback.UnsavedLines | app/services/invoice_processor.rb:72-80 | the lines left unsaved in `invoice_lines` after a rollback fit their columns, and are all the parsed lines when the transaction reached the extraction |
| Rollback.UnsavedExtraction | app/services/invoice_processor.rb:83-91 | an unsaved extraction is cached on the invoice exactly when the transaction reached `Extraction.create!` |
| Rollback.CreateLinesSpec | app/services/invoice_processor.rb:103 | saving the unsaved lines succeeds exactly when they all fit, and then appends them in order to the invoice's lines |
| Rollback.SaveRecordSpec | app/services/invoice_processor.rb:103 | the rescue's `update!` succeeds exactly when the record, every unsaved line and the cached extraction are accepted. It then stores the record, appends the lines and inserts the extraction. When the cached extraction is refused, the save raises that refusal |
| Rollback.RescueAsWritten | app/services/invoice_processor.rb:102-109 | the rescue as written always raises and keeps the schema's guarantees |
| Rollback.NoResponseAsWritten | app/services/invoice_processor.rb:93-108 | the empty-reply branch as written keeps the schema's guarantees |
| Rollback.ProcessAsWritten | app/services/invoice_processor.rb:10-110 | `process` as written keeps the schema's guarantees and never removes its invoice |
| Rollback.AsWrittenAgrees | app/services/invoice_processor.rb:10-110 | four cases leave the code as written with the same store and outcome as the corrected `process`: a client error, content that is not JSON, a committed transaction, and an empty reply for an invoice without an extraction |
| Rollback.AsWrittenOwnRows | app/services/invoice_processor.rb:10-110 | as written, `process` keeps the schema's guarantees and changes only its own invoice's rows. It removes no row and adds at most that invoice's extraction |
| Rollback.OverflowingTotalStaysExtracting | app/services/invoice_processor.rb:60-109 | as written, a total beyond `numeric(12,2)` leaves the store as the first `update!` left it, `extracting` and with no new extraction, and the call raises numeric overflow |
| Rollback.RescueKeepsExtractedFields | app/services/invoice_processor.rb:72-103 | as written, a refused line leaves the invoice `error`, with the message in notes and every extracted field stored. The lines written before the refusal are inserted again. A failed extraction is added, or the call raises `RecordNotUnique` when one exists |
| Rollback.RefusedExtractionStaysExtracting | app/services/invoice_processor.rb:83-103 | as written, an extraction refused by the unique index or by the range of `duration_ms` is refused again by the rescue's save. The store stays as the first `update!` left it, and the call raises that refusal |
| Rollback.RescueSavesRefusedExtraction | app/services/invoice_processor.rb:83-109 | as written, when the database refuses the extraction for its own reason, the rescue's save stores the extracted fields with `error`, every parsed line and the completed extraction. The failed extraction then breaks the unique index, and the call raises `RecordNotUnique` |
| Rollback.NoContentKeepsNoNote | app/services/invoice_processor.rb:93-108 | as written, an empty reply for an invoice that has an extraction leaves it `error` with the time stamped and no note. Nothing else changes, and the call raises `RecordNotUnique` |
| Rollback.StuckExample | app/services/invoice_processor.rb:102-109 | a concrete invoice with total 10^10: as written it stays `extracting` without an extraction, while the corrected `process` ends in `error` with one |
| Processing.CastDecimalNull | app/services/invoice_processor.rb:65-77 | a decimal column is NULL exactly when the value is blank in Ruby's sense, except that `false` is stored as 0 |
| Processing.CastTextThenDecimal | app/services/invoice_processor.rb:61-65 | a whole number stored in a text column is its decimal text, and that text, read into a decimal column, gives the number itself |
| Processing.CastDecimalOfWords | app/services/invoice_processor.rb:65-77 | a non-blank string with no digit, stored in a decimal column, is 0 |
| Job.Perform | app/jobs/process_invoice_job.rb:4-9 | `perform` keeps the schema's guarantees and changes nothing when the guard stops it |
| Job.Requests | app/jobs/process_invoice_job.rb:6-8 | one `perform` calls the model at most once, and does so exactly when the guard passes, with the prompt and the invoice's document URL |
| Job.PerformGuard | app/jobs/process_invoice_job.rb:5-6 | a missing id raises not-found and changes nothing; an invoice not `uploaded` is left as it is, the call returns, and no model call is made |
| Job.PerformChangesIffGuard | app/jobs/process_invoice_job.rb:6-8 | past the guard, `perform` is `process`, its outcome included; the store changes exactly when the guard passes |
| Job.PerformIdempotent | app/jobs/process_invoice_job.rb:6 | after any `perform`, delivering the same job again changes nothing, makes no model call and returns |
| Job.PerformIsLocal | app/jobs/process_invoice_job.rb:5-8 | `perform` keeps the schema's guarantees and touches only its own invoice's rows, or nothing when the guard stops it |
| Job.UploadKeepsAttemptsRecorded | db/schema.rb:65-85 | a newly created invoice passes the guard and keeps every `uploaded` invoice free of extractions |
| Job.PerformKeepsAttemptsRecorded | app/jobs/process_invoice_job.rb:4-9 | every `perform` keeps every `uploaded` invoice free of extractions |
| Job.OneExtractionPerAttempt | app/services/invoice_processor.rb:83-108 | each attempt past the guard adds exactly one extraction, for its own invoice. It is `completed` exactly when the transaction committed. The call returns exactly on a commit or an empty reply. When it raises, the failed record carries the message raised |
| Rollback.RescueAsWrittenStatus | app/services/invoice_processor.rb:102-103 | the rescue as written leaves the invoice `error` when its save is accepted, and with the status it found otherwise |
| Rollback.AsWrittenLeavesUploaded | app/services/invoice_processor.rb:10-110 | as written, `process` leaves its invoice `extracting`, `extracted` or `error`, never `uploaded`, and `extracted` exactly when the transaction commits |
| Job.PerformAsWritten | app/jobs/process_invoice_job.rb:4-9 | `perform` over `process` as written keeps the schema's guarantees and changes nothing when the guard stops it |
| Job.PerformAsWrittenChangesIffGuard | app/jobs/process_invoice_job.rb:6-8 | as written, past the guard `perform` is `process`, its outcome included, and the store changes exactly when the guard passes |
| Job.PerformAsWrittenIdempotent | app/jobs/process_invoice_job.rb:6 | as written, after any `perform`, delivering the same job again changes nothing, makes no model call and returns |
| Job.PerformAsWrittenIsLocal | app/jobs/process_invoice_job.rb:5-8 | as written, `perform` keeps the schema's guarantees and touches only its own invoice's rows, or nothing when the guard stops it |
| Job.PerformAsWrittenKeepsAttemptsRecorded | app/jobs/process_invoice_job.rb:4-9 | as written, every `perform` keeps every `uploaded` invoice free of extractions |
| Scenarios.ScenarioSuccess | app/services/invoice_processor.rb:58-92 | the Acme reply leaves the invoice `extracted` with vendor, number, total 100.00 and currency, one Widget line of quantity 2.000 and total 100.00, and a completed extraction |
| Scenarios.ScenarioTimeout | app/services/invoice_processor.rb:102-109 | a timeout from the client leaves the invoice `error` with the timeout message in notes, a failed extraction with that message, no lines, and re-raises |
| Scenarios.ScenarioNotJson | app/services/invoice_processor.rb:56 | content that is not JSON raises a parse error, leaves the invoice `error` with a failed extraction and no lines |
| Scenarios.ScenarioAlreadyExtracted | app/jobs/process_invoice_job.rb:6 | the job on an `extracted` invoice changes nothing and calls no model |
| Scenarios.ScenarioProcessAgain | db/schema.rb:38 | `process` on an invoice that has its extraction raises `RecordNotUnique` and sets `error`, leaving lines and extractions as they were |
| Scenarios.ScenarioProcessAgainAsWritten | app/services/invoice_processor.rb:83-103 | as written, `process` on an invoice that has its extraction raises the refusal and leaves it `extracting`, with its notes, lines and extractions as they were |
| Scenarios.ScenarioLineRefused | app/services/invoice_processor.rb:72-80 | a reply whose second line item is a bare number raises not-indexable and leaves the invoice `error`, with no lines and a failed extraction |
| Scenarios.ScenarioLineRefusedAsWritten | app/services/invoice_processor.rb:72-103 | as written, the same reply leaves the invoice `error` with the widget line stored and a failed extraction |
| Scenarios.ScenariosOnUpload | app/jobs/process_invoice_job.rb:4-9 | a fresh upload is extracted with its one line, and a second delivery of the job leaves it as it is |
| Persistence.Store.Find | app/jobs/process_invoice_job.rb:5 | `Invoice.find` answers the row exactly when the id exists, and not-found otherwise |
| Persistence.Store.CreateInvoice | db/schema.rb:65-85 | the object store does what `Schema.CreateInvoice` describes and reports its error |
| Persistence.Store.Assign | app/services/invoice_processor.rb:11 | an `update!` of values that fit replaces only that invoice's row |
| Persistence.Store.UpdateInvoice | app/services/invoice_processor.rb:60-69 | the object store does what `Schema.UpdateInvoice` describes and reports its error |
| Persistence.Store.CreateLine | app/services/invoice_processor.rb:73-79 | the object store does what `Schema.CreateLine` describes and reports its error |
| Persistence.Store.CreateExtraction | app/services/invoice_processor.rb:83-91 | the object store does what `Schema.CreateExtraction` describes and reports its error |
| Persistence.Store.Destroy | app/models/invoice.rb:4-5 | the object store does what `Schema.Destroy` describes |
| Persistence.Store.Restore | app/services/invoice_processor.rb:58 | a rolled-back transaction puts every table back to the snapshot taken when it began |
| Services.ModelClient.Chat | app/services/invoice_processor.rb:34-46 | the client records the request it is sent and hands back the service's reply |
| Services.InvoiceProcessor.constructor | app/services/invoice_processor.rb:2-8 | `InvoiceProcessor.new` builds a fresh client that has sent nothing |
| Services.InvoiceProcessor.Process | app/services/invoice_processor.rb:10-110 | the method leaves the store and outcome that `Processing.Process` gives. It keeps the schema's guarantees, and it sends exactly one request, with the invoice's document |
| Services.InvoiceProcessor.NoResponse | app/services/invoice_processor.rb:93-100 | the method leaves the store and outcome that `Processing.NoResponse` gives |
| Services.InvoiceProcessor.Rescue | app/services/invoice_processor.rb:102-109 | the method leaves the store and outcome that `Processing.Rescue` gives |
| Services.InvoiceProcessor.WriteBack | app/services/invoice_processor.rb:58-92 | the transaction, run as snapshot, writes and restore on the first error, leaves the store and error of `Processing.WriteBack` |
| Services.InvoiceProcessor.InsertEach | app/services/invoice_processor.rb:72-80 | the `while` loop over the items raises exactly what `Processing.InsertLines` raises, leaves its store when it succeeds, and never changes the invoices |
| Jobs.ProcessInvoiceJob.Perform | app/jobs/process_invoice_job.rb:4-9 | the job leaves the store and outcome of `Job.Perform`, keeps the schema's guarantees, and sends exactly the requests `Job.Requests` predicts |

## Left out

- The chat service, its credentials, its HTTP transport and the `dig` into its answer are not modelled. The answer is an input (`Reply`): an exception, no content, content that does not decode, or a decoded JSON object.
- `JSON.parse` is not modelled. A decoded reply is always an object here. Content that decodes to a top-level array, number or string is not modelled. In the code, `data['Vendor Name']` raises `TypeError` on an array or a number, and reads nil on a string. JSON numbers are exact decimals, not Ruby Floats, so float rounding before the decimal cast is not captured.
- The clock is an input. `processed_at` is a given time and `duration_ms` a given whole number. The float-to-integer cast of the measured duration is not modelled.
- `mock_response` is left out: nothing calls it.
- Concurrency is left out. So is the race between two deliveries that both pass the status guard, because each `perform` is modelled as one atomic step.
- Writes the database refuses for its own reasons are an input (`Fault`). The model covers the invoice update, each line and the extraction inside the transaction; see `Processing.Refused`. The writes outside the transaction refuse only on the unique index and on range.
- `created_at` and `updated_at` are not modelled.
- The invoice column `match_confidence` is not modelled, because the core never writes it. `account_id`, `po_id` and `discrepancy_amount` are kept as plain columns. The existence of the account and of the purchase order is not checked, because accounts, users and purchase orders are not part of this model.
- The `integrations` table, the controller, the frontend and the queue backend are not part of this model.
- Dates are stored as the text the reply gave. Parsing a date string into a `date` column, and an invalid date being stored as NULL, are not modelled.
- Processing.CastText: strings, `true`/`false` (as `t`/`f`) and whole numbers (as their digits) are stored as ActiveRecord stores them. A number with a fraction or an exponent, an array and a hash are stored as NULL here, though ActiveRecord would store their `to_s` text.
- Processing.CastDecimal: the cast follows ActiveModel's numeric cast. `true` and `false` give 1 and 0, a blank value (nil, a white-space string, an empty array or hash) gives NULL, and a string goes through `String#to_d`. A non-empty array or hash gives 0, as `to_d` of its text does. What is lost: `to_d`'s exponent (`1e3`) and underscore (`1_000`) forms, which read here as the digits before them; white space other than ASCII in `blank?` and in `to_d`'s leading skip; and the Float rounding that `JSON.parse` applies to fractions before the cast.
- Processing.CastDate: a non-string value for a date column is modelled as NULL.
- Processing.ProcessRollsBack: states the corrected rescue, which starts from the rows as they were before the transaction. As written, the rescue saves again what the rollback left in memory (see "## Findings" and `Rollback.RescueKeepsExtractedFields`).
- Processing.NoResponseSpec: for an invoice that already has an extraction, states the corrected rescue, which writes the `RecordNotUnique` message into notes. As written, the refused failed extraction stays cached on the invoice, the rescue's save is refused as well, and no note is kept (`Rollback.NoContentKeepsNoNote`).
- Processing.RescueSpec: states the corrected rescue, which saves only status and notes. As written, it also saves the in-memory record, its unsaved lines and its cached extraction (`Rollback.SaveRecordSpec`). The two agree when nothing is left in memory (`Rollback.AsWrittenAgrees`).
- Processing.ProcessOnNoContent: when the invoice already has an extraction, states the corrected rescue, which writes the `RecordNotUnique` message into notes. As written, no note is kept (`Rollback.NoContentKeepsNoNote`).
- Processing.ProcessOwnRows: states the corrected `process`, on which every path gives the invoice an extraction and a rollback leaves the lines untouched. As written, neither holds on every path (see "## Findings").
- Processing.ProcessFrame: states that the corrected `process` adds its invoice's extraction. As written, it may add none; `Rollback.AsWrittenOwnRows` is the frame that holds for the code as written.
- Processing.ProcessIsLocal: states that the corrected `process` adds its invoice's extraction. As written, `Rollback.AsWrittenOwnRows` holds instead, with at most that extraction added.
- Processing.ProcessSettles: states the corrected `process`, which always ends in `extracted` or `error`. As written, it can stay `extracting` (see "## Findings").
- Job.OneExtractionPerAttempt: states the corrected `process`, which adds exactly one extraction per attempt. As written, an attempt can add none (see "## Findings").
- Job.PerformChangesIffGuard: states the job over the corrected `process`. The same property of the job as written is `Job.PerformAsWrittenChangesIffGuard`.
- Job.PerformIdempotent: states the job over the corrected `process`. The same property of the job as written is `Job.PerformAsWrittenIdempotent`.
- Job.PerformKeepsAttemptsRecorded: states the job over the corrected `process`. The same property of the job as written is `Job.PerformAsWrittenKeepsAttemptsRecorded`.
- Job.PerformIsLocal: states that the corrected `process` adds its invoice's extraction. As written, `Job.PerformAsWrittenIsLocal` holds instead, with at most that extraction added.
- Services.InvoiceProcessor.Process: runs the corrected `process`, so a rollback also resets the in-memory record. The rescue as written is `Rollback.RescueAsWritten`, which is not given an imperative form.
- Jobs.ProcessInvoiceJob.Perform: runs `Services.InvoiceProcessor.Process`, and so the corrected `process`.
- Scenarios.ScenarioProcessAgain: states the corrected `process`. The run as written is `Scenarios.ScenarioProcessAgainAsWritten`.
- Scenarios.ScenarioLineRefused: states the corrected `process`. The run as written is `Scenarios.ScenarioLineRefusedAsWritten`.
- The inverse from `Extraction` back to its invoice is taken to be the automatic inverse of `belongs_to :invoice`, because `app/models/extraction.rb` is not part of this model. The as-written model of that cache (`Rollback.UnsavedExtraction`) rests on it.
- Schema.Message: error messages are representative texts, not the exact texts the database and libraries produce.
- Exceptions outside `StandardError`, such as an interrupt, are not modelled. Neither is the `update!` before the transaction ever failing, because it stores only a status and a time.

## Findings

| source | as written | input that shows it | evidently intended | confidence | as-written member | corrected member |
|---|---|---|---|---|---|---|
| app/services/invoice_processor.rb:60-103 | after the transaction rolls back, the rescue's `invoice.update!` saves the Ruby record, which still holds the extracted values assigned inside the transaction | a reply whose `Total Amount` is 10000000000, beyond `numeric(12,2)`: the rescue's save overflows again, so the invoice stays `extracting` and no extraction row is written | the rescue marks the invoice `error`, stores the message in notes and records a failed extraction, starting from the row as it was before the transaction | not executed; medium, since it rests on ActiveRecord keeping the assigned values as unsaved changes after a rollback | Rollback.OverflowingTotalStaysExtracting | Processing.ProcessSettles |
| app/services/invoice_processor.rb:72-103 | the lines that `invoice.invoice_lines.create!` inserted before a later item raised stay in the association as new records after the rollback, and the rescue's `update!` autosaves them | a reply whose `Line Items` are a widget object followed by the bare number 5, for an invoice without lines or extraction (`Scenarios.BadSecondItem`): the widget line is stored though the transaction rolled back | a rolled-back transaction leaves no line behind, and the rescue only records the failure | not executed; medium, since it rests on `has_many` autosave of new records in the association target | Scenarios.ScenarioLineRefusedAsWritten | Scenarios.ScenarioLineRefused |
| app/services/invoice_processor.rb:83-103 | `Extraction.create!(invoice: invoice)` caches the new extraction on the invoice before inserting it; when the insert is refused, the cached record stays and the rescue's `update!` tries to save it again | `process` run again on an invoice that already has its extraction: the rescue's save is refused by the unique index too, so the invoice stays `extracting`, no error is noted and the failure is not recorded | the rescue marks the invoice `error` and notes the message, as it does for any other error | not executed; low to medium, since `app/models/extraction.rb` is not part of this model and this rests on the automatic inverse of `belongs_to :invoice` | Scenarios.ScenarioProcessAgainAsWritten | Scenarios.ScenarioProcessAgain |
