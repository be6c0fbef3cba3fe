/**
 * The tables the extraction pipeline writes (invoices, invoice_lines, extractions),
 * the Invoice model's status enum and associations, the column defaults and
 * fixed-point scales, and the single-row writes the database accepts or refuses.
 */
module Schema {
  import opened Wrappers
  import opened Json

  type Id = string
  type Time = int

  // ---------------------------------------------------------------------------
  // Invoice status enum: seven values, stored as their names.

  datatype Status = Uploaded | Extracting | Extracted | Matched | Approved | Exported | Error

  function StatusName(s: Status): string
  {
    match s
    case Uploaded => "uploaded"
    case Extracting => "extracting"
    case Extracted => "extracted"
    case Matched => "matched"
    case Approved => "approved"
    case Exported => "exported"
    case Error => "error"
  }

  /** Reading a stored status back: exactly the seven names are accepted. */
  function ParseStatus(name: string): (r: Option<Status>)
    ensures r.Some? ==> StatusName(r.value) == name
    ensures r.None? ==> forall s :: StatusName(s) != name
  {
    if name == "uploaded" then Some(Uploaded)
    else if name == "extracting" then Some(Extracting)
    else if name == "extracted" then Some(Extracted)
    else if name == "matched" then Some(Matched)
    else if name == "approved" then Some(Approved)
    else if name == "exported" then Some(Exported)
    else if name == "error" then Some(Error)
    else None
  }

  /** Every status survives being stored and read back. */
  lemma StatusRoundTrip(s: Status)
    ensures ParseStatus(StatusName(s)) == Some(s)
  {
    match s
    case Uploaded =>
    case Extracting =>
    case Extracted =>
    case Matched =>
    case Approved =>
    case Exported =>
    case Error =>
  }

  /** The statuses an extraction row is written with; `pending` is the column default. */
  datatype ExtractionStatus = Pending | Completed | Failed

  // ---------------------------------------------------------------------------
  // Fixed-point columns. A decimal(precision, scale) value is held as an integer
  // count of 10^(-scale) units; it fits when it has at most `precision` digits.

  function Pow10(n: nat): (r: nat)
    ensures r >= 1
  {
    if n == 0 then 1 else 10 * Pow10(n - 1)
  }

  lemma {:induction false} Pow10Add(a: nat, b: nat)
    ensures Pow10(a + b) == Pow10(a) * Pow10(b)
    decreases b
  {
    if b > 0 {
      Pow10Add(a, b - 1);
      assert Pow10(a + b) == 10 * Pow10(a + b - 1);
    }
  }

  const MoneyPrecision: nat := 12
  const MoneyScale: nat := 2
  const QuantityPrecision: nat := 10
  const QuantityScale: nat := 3
  const ConfidencePrecision: nat := 3
  const ConfidenceScale: nat := 2
  const CostPrecision: nat := 8
  const CostScale: nat := 6
  /** The largest value a 4-byte `integer` column holds. */
  const Int4Max: int := 2147483647

  /** A scaled value with at most `precision` digits. */
  predicate FitsNumeric(v: int, precision: nat)
  {
    -(Pow10(precision) as int) < v < Pow10(precision)
  }

  predicate FitsCell(c: Option<int>, precision: nat)
  {
    c.Some? ==> FitsNumeric(c.value, precision)
  }

  function Abs(x: int): nat
  {
    if x < 0 then -x else x
  }

  /** `a / p` rounded half up, for a non-negative `a`. */
  function RoundHalfUp(a: nat, p: nat): nat
    requires p >= 1
  {
    if 2 * (a % p) >= p then a / p + 1 else a / p
  }

  lemma RoundHalfUpIsNearest(a: nat, p: nat)
    requires p >= 1
    ensures 2 * Abs(RoundHalfUp(a, p) * p - a) <= p
  {
    var q, rem := a / p, a % p;
    assert a == q * p + rem;
    if 2 * rem >= p {
      assert RoundHalfUp(a, p) * p == q * p + p;
    }
  }

  /**
   * A decimal column's cast: the value is rounded to the column's scale, half
   * away from zero (BigDecimal's default rounding).
   */
  function RoundToScale(d: Decimal, scale: nat): int
  {
    if d.exponent <= scale then d.mantissa * Pow10(scale - d.exponent)
    else
      var mag: int := RoundHalfUp(Abs(d.mantissa), Pow10(d.exponent - scale));
      if d.mantissa < 0 then -mag else mag
  }

  lemma AbsMul(x: int, y: nat)
    ensures Abs(x * y) == Abs(x) * y
  {
    if x < 0 {
      assert x * y == -((-x) * y);
    }
  }

  lemma MulMono(a: int, b: int, s: nat)
    requires a <= b
    ensures a * s <= b * s
  {
    assert b * s - a * s == (b - a) * s;
  }

  /** Scaling both sides of the rounding error by 10^scale. */
  lemma ScaleError(r: int, m: int, p: nat, s: nat)
    requires 2 * Abs(r * p - m) <= p
    ensures 2 * Abs(r * (p * s) - m * s) <= p * s
  {
    var e := r * p - m;
    assert r * (p * s) == (r * p) * s;
    assert (r * p) * s - m * s == e * s;
    AbsMul(e, s);
    MulMono(2 * Abs(e), p, s);
    assert (2 * Abs(e)) * s == 2 * (Abs(e) * s);
  }

  lemma ExactScale(m: int, q: nat, p: nat, s: nat)
    requires q * p == s
    ensures (m * q) * p - m * s == 0
  {
    assert (m * q) * p == m * (q * p);
  }

  lemma SignedError(m: int, mag: nat, p: nat)
    ensures Abs((if m < 0 then -(mag as int) else mag) * p - m) == Abs(mag * p - Abs(m))
  {
    if m < 0 {
      assert (-(mag as int)) * p - m == -(mag * p - Abs(m));
    }
  }

  /**
   * The stored value is the nearest value of the column's scale: the distance
   * between stored value (in 10^-scale units) and the JSON number is at most
   * half a unit.
   */
  lemma RoundingIsNearest(d: Decimal, scale: nat)
    ensures 2 * Abs(RoundToScale(d, scale) * Pow10(d.exponent) - d.mantissa * Pow10(scale))
            <= Pow10(d.exponent)
  {
    var r := RoundToScale(d, scale);
    var m := d.mantissa;
    var big, s := Pow10(d.exponent), Pow10(scale);
    if d.exponent <= scale {
      var q := Pow10(scale - d.exponent);
      Pow10Add(scale - d.exponent, d.exponent);
      assert r == m * q;
      ExactScale(m, q, big, s);
    } else {
      var p := Pow10(d.exponent - scale);
      var mag := RoundHalfUp(Abs(m), p);
      assert r == if m < 0 then -(mag as int) else mag;
      RoundHalfUpIsNearest(Abs(m), p);
      SignedError(m, mag, p);
      Pow10Add(d.exponent - scale, scale);
      assert big == p * s;
      ScaleError(r, m, p, s);
    }
  }

  /**
   * A JSON number that the column's scale represents exactly (value == k units)
   * is stored as exactly k: extracted amounts read back unchanged.
   */
  lemma RoundExact(d: Decimal, scale: nat, k: int)
    requires d.mantissa * Pow10(scale) == k * Pow10(d.exponent)
    ensures RoundToScale(d, scale) == k
  {
    RoundingIsNearest(d, scale);
    NearestIsUnique(RoundToScale(d, scale), k, Pow10(d.exponent), d.mantissa * Pow10(scale));
  }

  lemma NearestIsUnique(r: int, k: int, p: nat, x: int)
    requires p >= 1 && x == k * p
    requires 2 * Abs(r * p - x) <= p
    ensures r == k
  {
    assert r * p - x == (r - k) * p;
    AbsMul(r - k, p);
    if r != k {
      MulMono(1, Abs(r - k), p);
    }
  }

  // ---------------------------------------------------------------------------
  // Rows.

  /** An invoices row; money in hundredths. Timestamps other than processed_at are not modelled. */
  datatype Invoice = Invoice(
    accountId: Id,
    poId: Option<Id>,
    fileUrl: Option<string>,
    invoiceNumber: Option<string>,
    vendorName: Option<string>,
    invoiceDate: Option<string>,
    dueDate: Option<string>,
    totalAmount: Option<int>,
    currency: Option<string>,
    status: Status,
    extractedData: Option<JsonVal>,
    discrepancyAmount: Option<int>,
    notes: Option<string>,
    processedAt: Option<Time>)

  /** An invoice_lines row; quantity in thousandths, prices in hundredths. */
  datatype Line = Line(
    description: Option<string>,
    quantity: Option<int>,
    unitPrice: Option<int>,
    lineTotal: Option<int>,
    sku: Option<string>)

  /** An extractions row; confidence in hundredths, cost in millionths of a dollar. */
  datatype Extraction = Extraction(
    aiModel: Option<string>,
    rawPrompt: Option<string>,
    rawResponse: Option<JsonVal>,
    confidence: Option<int>,
    errorMessage: Option<string>,
    durationMs: Option<int>,
    costUsd: Option<int>,
    status: ExtractionStatus)

  /**
   * A new invoice as the database fills it in: status `uploaded`, currency `INR`,
   * discrepancy 0, every extracted field NULL. The account is required, the
   * purchase order optional.
   */
  function NewInvoice(accountId: Id, poId: Option<Id>, fileUrl: Option<string>, notes: Option<string>): (inv: Invoice)
    ensures inv.status == Uploaded && inv.currency == Some("INR") && inv.discrepancyAmount == Some(0)
    ensures inv.accountId == accountId && inv.poId == poId && inv.fileUrl == fileUrl && inv.notes == notes
    ensures inv.extractedData.None? && inv.processedAt.None? && inv.totalAmount.None?
  {
    Invoice(accountId, poId, fileUrl, None, None, None, None, None, Some("INR"), Uploaded,
            None, Some(0), notes, None)
  }

  /** An extraction row with every column at its default: status `pending`, all else NULL. */
  const PendingExtraction: Extraction :=
    Extraction(None, None, None, None, None, None, None, Pending)

  predicate InvoiceFits(inv: Invoice)
  {
    FitsCell(inv.totalAmount, MoneyPrecision) && FitsCell(inv.discrepancyAmount, MoneyPrecision)
  }

  predicate LineFits(l: Line)
  {
    && FitsCell(l.quantity, QuantityPrecision)
    && FitsCell(l.unitPrice, MoneyPrecision)
    && FitsCell(l.lineTotal, MoneyPrecision)
  }

  predicate DurationFits(d: Option<int>)
  {
    d.Some? ==> -Int4Max - 1 <= d.value <= Int4Max
  }

  predicate ExtractionFits(x: Extraction)
  {
    && DurationFits(x.durationMs)
    && FitsCell(x.confidence, ConfidencePrecision)
    && FitsCell(x.costUsd, CostPrecision)
  }

  /** The discrepancy default 0 and the empty extracted fields fit their columns. */
  lemma NewInvoiceFits(accountId: Id, poId: Option<Id>, fileUrl: Option<string>, notes: Option<string>)
    ensures InvoiceFits(NewInvoice(accountId, poId, fileUrl, notes))
  {
  }

  // ---------------------------------------------------------------------------
  // The three tables together. Lines are keyed by their invoice (belongs to
  // exactly that invoice); extractions too, one at most per invoice, which is
  // what the unique index on extractions.invoice_id enforces.

  datatype Db = Db(
    invoices: map<Id, Invoice>,
    lines: map<Id, seq<Line>>,
    extractions: map<Id, Extraction>)

  /** The lines of an invoice, empty when it has none. */
  function LinesOf(db: Db, id: Id): seq<Line>
  {
    if id in db.lines then db.lines[id] else []
  }

  lemma SeqAssoc<T>(a: seq<T>, x: T, b: seq<T>)
    ensures (a + [x]) + b == a + ([x] + b)
  {
  }

  lemma MapOverride<K, V>(m: map<K, V>, k: K, v1: V, v2: V)
    ensures m[k := v1][k := v2] == m[k := v2]
  {
  }

  /**
   * What the schema guarantees of every state: foreign keys from invoice_lines and
   * extractions into invoices, and every fixed-point value within its precision.
   */
  predicate Valid(db: Db)
  {
    && db.lines.Keys == db.invoices.Keys
    && db.extractions.Keys <= db.invoices.Keys
    && (forall id :: id in db.invoices ==> InvoiceFits(db.invoices[id]))
    && (forall id, k :: id in db.lines && 0 <= k < |db.lines[id]| ==> LineFits(db.lines[id][k]))
    && (forall id :: id in db.extractions ==> ExtractionFits(db.extractions[id]))
  }

  const EmptyDb: Db := Db(map[], map[], map[])

  // ---------------------------------------------------------------------------
  // Errors the pipeline can raise, and the message a rescue stores.

  datatype Error =
    | NotFound(id: Id)          // ActiveRecord::RecordNotFound from Invoice.find
    | ClientError(msg: string)  // anything the model client raises
    | ParseError(msg: string)   // JSON::ParserError
    | StoreError(msg: string)   // a write the database refused for its own reasons
    | RecordNotUnique           // second extraction row for one invoice
    | NumericOverflow           // a decimal beyond its precision
    | IntegerOutOfRange         // a value beyond a 4-byte integer column
    | NotIterable               // `each` on a value that has no `each`
    | NotIndexable              // `[]` with a string key on a value that does not take one

  function Message(e: Error): string
  {
    match e
    case NotFound(id) => "Couldn't find Invoice with 'id'=" + id
    case ClientError(msg) => msg
    case ParseError(msg) => msg
    case StoreError(msg) => msg
    case RecordNotUnique => "duplicate key value violates unique constraint \"index_extractions_on_invoice_id\""
    case NumericOverflow => "numeric field overflow"
    case IntegerOutOfRange => "value is out of range for ActiveModel::Type::Integer with limit 4 bytes"
    case NotIterable => "undefined method 'each'"
    case NotIndexable => "no implicit conversion of String into Integer"
  }

  // ---------------------------------------------------------------------------
  // Single-row writes, each accepted whole or refused with nothing changed.

  /** `Invoice#save` of a new row; refused on a duplicate primary key or an overflowing value. */
  function CreateInvoice(db: Db, id: Id, inv: Invoice): (r: Result<Db, Error>)
    ensures Valid(db) && r.Ok? ==> Valid(r.value)
    ensures r.Ok? <==> id !in db.invoices && InvoiceFits(inv)
    ensures r.Ok? ==> r.value == Db(db.invoices[id := inv], db.lines[id := []], db.extractions)
  {
    if id in db.invoices then Err(StoreError("duplicate key value violates unique constraint \"invoices_pkey\""))
    else if !InvoiceFits(inv) then Err(NumericOverflow)
    else Ok(Db(db.invoices[id := inv], db.lines[id := []], db.extractions))
  }

  /** `invoice.update!`: replaces the row; refused when a value overflows its column. */
  function UpdateInvoice(db: Db, id: Id, inv: Invoice): (r: Result<Db, Error>)
    requires id in db.invoices
    ensures Valid(db) && r.Ok? ==> Valid(r.value)
    ensures r.Ok? <==> InvoiceFits(inv)
    ensures r.Err? ==> r.error == NumericOverflow
    ensures r.Ok? ==> r.value == db.(invoices := db.invoices[id := inv])
  {
    if InvoiceFits(inv) then Ok(db.(invoices := db.invoices[id := inv])) else Err(NumericOverflow)
  }

  /** `invoice.invoice_lines.create!`: appends one line; refused when a value overflows. */
  function CreateLine(db: Db, id: Id, l: Line): (r: Result<Db, Error>)
    requires id in db.invoices
    ensures Valid(db) && r.Ok? ==> Valid(r.value)
    ensures r.Ok? <==> LineFits(l)
    ensures r.Err? ==> r.error == NumericOverflow
    ensures r.Ok? ==> r.value == db.(lines := db.lines[id := LinesOf(db, id) + [l]])
  {
    if LineFits(l) then Ok(db.(lines := db.lines[id := LinesOf(db, id) + [l]])) else Err(NumericOverflow)
  }

  /**
   * `Extraction.create!`: inserts the invoice's extraction row. Refused for an
   * out-of-range duration, an overflowing decimal, or when the invoice already has
   * one (the unique index).
   */
  function CreateExtraction(db: Db, id: Id, x: Extraction): (r: Result<Db, Error>)
    requires id in db.invoices
    ensures Valid(db) && r.Ok? ==> Valid(r.value)
    ensures r.Ok? <==> id !in db.extractions && ExtractionFits(x)
    ensures id in db.extractions && ExtractionFits(x) ==> r == Err(RecordNotUnique)
    ensures r.Ok? ==> r.value == db.(extractions := db.extractions[id := x])
  {
    if !DurationFits(x.durationMs) then Err(IntegerOutOfRange)
    else if !FitsCell(x.confidence, ConfidencePrecision) || !FitsCell(x.costUsd, CostPrecision) then Err(NumericOverflow)
    else if id in db.extractions then Err(RecordNotUnique)
    else Ok(db.(extractions := db.extractions[id := x]))
  }

  /**
   * `invoice.destroy` with `dependent: :destroy` on lines and extraction: the
   * invoice, all its lines and its extraction go; every other row stays.
   */
  function Destroy(db: Db, id: Id): (r: Db)
    ensures Valid(db) ==> Valid(r)
    ensures id !in r.invoices && id !in r.lines && id !in r.extractions
    ensures forall j :: j != id ==> (j in r.invoices <==> j in db.invoices)
    ensures forall j :: j != id && j in db.invoices ==> r.invoices[j] == db.invoices[j]
    ensures forall j :: j != id && j in db.lines ==> j in r.lines && r.lines[j] == db.lines[j]
    ensures forall j :: j != id ==> (j in r.extractions <==> j in db.extractions)
    ensures forall j :: j != id && j in db.extractions ==> r.extractions[j] == db.extractions[j]
  {
    Db(db.invoices - {id}, db.lines - {id}, db.extractions - {id})
  }
}
