// The rows of the agency books: ledger entries, invoices, allocations, payments.
// Rows are never deleted, so a row's position in its list is its id and age.
module Records {
  import opened Wrappers

  /** A reseller account, by the rank of its username in sorted order. */
  type Admin = int

  datatype EntryKind = QuotaCharge | ManualCharge | Adjustment | PaymentIn

  datatype Entry = Entry(admin: Admin, kind: EntryKind, amount: int, created: int, voided: bool)
  {
    /** Positive: the reseller owes more. */
    function Signed(): int {
      if kind.PaymentIn? then -amount else amount
    }

    predicate IsCharge() {
      kind.QuotaCharge? || kind.ManualCharge?
    }

    /** A payment or a debt decrease: the entries that can settle invoices. */
    predicate Reducing() {
      kind.PaymentIn? || (kind.Adjustment? && amount < 0)
    }

    function Size(): int {
      if amount < 0 then -amount else amount
    }
  }

  datatype AllocKind = ByPayment | ByManual | ByAdjustment | Outside | ByBalance

  datatype Via = Unsettled | Via(kind: AllocKind) | Mixed

  datatype InvoiceKind = QuotaInvoice | ChargeInvoice | RequestInvoice | Settlement

  datatype InvoiceStatus = Unpaid | Pending | Paid | Voided

  datatype Invoice = Invoice(
    admin: Admin, kind: InvoiceKind, amount: int, status: InvoiceStatus,
    entry: Option<nat>, created: int, paid: int, via: Via)
  {
    predicate IsOpen() {
      status.Unpaid? || status.Pending?
    }

    function Remaining(): int {
      if !IsOpen() then 0 else if amount - paid > 0 then amount - paid else 0
    }
  }

  datatype Alloc = Alloc(
    invoice: nat, kind: AllocKind, amount: int,
    entry: Option<nat>, payment: Option<nat>, auto: bool, released: bool)

  datatype PaymentStatus = AwaitingTransfer | InReview | Approved | Rejected | Expired | Cancelled

  datatype Item = Item(invoice: nat, amount: int)

  /** The last field is history that no operation looks at: a near miss reached the payment after it was decided. */
  datatype Payment = Payment(
    amount: int, unique: int, lock: Option<int>, status: PaymentStatus, items: seq<Item>,
    created: int, expires: int, mismatch: Option<int>, received: Option<int>, shortfall: Option<int>,
    late: bool)
  {
    /** The statuses that hold the unique amount. */
    predicate Active() {
      status.AwaitingTransfer? || status.InReview?
    }

    /** Still payable by a deposit. */
    predicate Matchable() {
      Active() || status.Expired?
    }

    function WithLock(): Payment {
      this.(lock := if Active() then Some(unique) else None)
    }

    /** Invoice i may be under review because of this payment. */
    predicate Covers(i: nat) {
      (status.InReview? || late) && Holds(i)
    }

    predicate Holds(i: nat) {
      exists k :: 0 <= k < |items| && items[k].invoice == i
    }
  }

  datatype Db = Db(
    entries: seq<Entry>, invoices: seq<Invoice>, allocs: seq<Alloc>, payments: seq<Payment>, now: int)

  /** Why an operation is refused; a refused operation changes nothing. */
  datatype Refusal = NotFound | Conflict | Invalid | Forbidden | Busy | NoPrice | Nothing | TotalChanged
}
