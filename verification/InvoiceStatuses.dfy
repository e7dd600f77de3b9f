/** The invoice life cycle shared by the approval and collection modules. */
module InvoiceStatuses {

  datatype InvoiceStatus =
    | Draft | Submitted | BuyerConfirmed | Scored | Priced | Approved | Rejected
    | PendingFirstAuth | PendingSecondAuth | Executing
    | Funded | Collecting | Overdue | Collected | Defaulted | Cancelled

  /** How far the collections module has taken an invoice. */
  function Rank(s: InvoiceStatus): (r: nat)
    ensures r <= 5
  {
    match s
    case Funded => 1
    case Collecting => 2
    case Overdue => 3
    case Defaulted => 4
    case Collected => 5
    case _ => 0
  }
}
