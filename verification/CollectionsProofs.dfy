/** What every step of the collections machine keeps, and what therefore holds after every run. */
module CollectionsProofs {
  import opened Common
  import opened InvoiceStatuses
  import opened CollectionsModel
  import Penalty

  // ---------------------------------------------------------------------
  // Reading the logs
  // ---------------------------------------------------------------------

  /** How many whole-invoice payments of `inv` were committed. */
  ghost function PaidCount(audit: seq<AuditRow>, inv: InvoiceId): nat {
    if audit == [] then 0
    else
      var last := audit[|audit| - 1];
      PaidCount(audit[..|audit| - 1], inv) + if last.InvoicePaid? && last.invoice == inv then 1 else 0
  }

  /** The face values of the invoices of buyer `b` among those payments. */
  ghost function PaidFaces(audit: seq<AuditRow>, terms: map<InvoiceId, Terms>, b: BuyerId): nat {
    if audit == [] then 0
    else
      var last := audit[|audit| - 1];
      PaidFaces(audit[..|audit| - 1], terms, b)
      + if last.InvoicePaid? && last.invoice in terms && terms[last.invoice].buyer == b then terms[last.invoice].face
        else 0
  }

  /** Every recorded payment against collection `c`. */
  function SumOf(payments: seq<Payment>, c: CollectionId): int {
    if payments == [] then 0
    else
      var last := payments[|payments| - 1];
      SumOf(payments[..|payments| - 1], c) + if last.collection == c then last.amount else 0
  }

  /** What the payment log makes of total_collected: a partial payment adds, a full one overwrites. */
  function Replay(payments: seq<Payment>, c: CollectionId): int {
    if payments == [] then 0
    else TotalAfter(Replay(payments[..|payments| - 1], c), c, payments[|payments| - 1])
  }

  function TotalAfter(total: int, c: CollectionId, p: Payment): int {
    if p.collection != c then total else if p.full then p.amount else total + p.amount
  }

  lemma AuditAppend(audit: seq<AuditRow>, row: AuditRow, terms: map<InvoiceId, Terms>)
    ensures forall inv: InvoiceId ::
              PaidCount(audit + [row], inv)
              == PaidCount(audit, inv) + if row.InvoicePaid? && row.invoice == inv then 1 else 0
    ensures forall b: BuyerId ::
              PaidFaces(audit + [row], terms, b) == PaidFaces(audit, terms, b)
                + if row.InvoicePaid? && row.invoice in terms && terms[row.invoice].buyer == b
                  then terms[row.invoice].face else 0
  {
    assert (audit + [row])[..|audit|] == audit;
  }

  lemma PaymentAppend(payments: seq<Payment>, p: Payment)
    ensures forall c: CollectionId :: Replay(payments + [p], c) == TotalAfter(Replay(payments, c), c, p)
  {
    assert (payments + [p])[..|payments|] == payments;
  }

  lemma {:induction false} NoPaymentsNoTotal(payments: seq<Payment>, c: CollectionId)
    requires forall i :: 0 <= i < |payments| ==> payments[i].collection != c
    ensures Replay(payments, c) == 0
  {
    if payments != [] {
      NoPaymentsNoTotal(payments[..|payments| - 1], c);
    }
  }

  // ---------------------------------------------------------------------
  // The invariant
  // ---------------------------------------------------------------------

  /** Immutable columns stay, and every invoice keeps a status. */
  ghost predicate SameInvoices(db0: Db, db: Db) {
    && db.terms == db0.terms && db.amlThreshold == db0.amlThreshold && db.systemUserKnown == db0.systemUserKnown
    && db.status.Keys == db.terms.Keys && db.buyers.Keys == db0.buyers.Keys
    && (forall i :: i in db.terms ==> db.terms[i].buyer in db.buyers)
  }

  /** Each buyer's used limit is the initial one less the invoices paid in full. */
  ghost predicate LimitsConserved(db0: Db, db: Db)
    requires db.buyers.Keys == db0.buyers.Keys
  {
    forall b :: b in db.buyers ==>
      && db.buyers[b].usedLimit == db0.buyers[b].usedLimit - PaidFaces(db.audit, db.terms, b)
      && db.buyers[b].usedLimit >= 0
      && 0 <= db.buyers[b].score <= 100
  }

  /** An invoice is paid in full at most once, and then it is collected. */
  ghost predicate PaidOnce(db: Db) {
    forall inv: InvoiceId :: PaidCount(db.audit, inv) <= 1
      && (PaidCount(db.audit, inv) == 1 ==> HasStatus(db, inv, Collected))
  }

  ghost predicate LedgerOk(db: Db) {
    && (forall c :: 0 <= c < |db.collections| ==> db.collections[c].totalCollected == Replay(db.payments, c))
    && (forall i :: 0 <= i < |db.payments| ==> PaymentOk(db, db.payments[i]))
  }

  ghost predicate PaymentOk(db: Db, p: Payment) {
    && p.amount > 0
    && p.collection < |db.collections|
    && (p.full ==> PaidCount(db.audit, db.collections[p.collection].invoice) == 1)
  }

  ghost predicate DbInv(db0: Db, db: Db) {
    SameInvoices(db0, db) && LimitsConserved(db0, db) && PaidOnce(db) && RowsOk(db) && LedgerOk(db)
  }

  /** What a worker's memory still guarantees, however stale it is. */
  ghost predicate MemoryOk(db: Db, p: Phase) {
    match p
    case StartReady(inv, rate) => inv in db.terms && inv in db.status && Rank(db.status[inv]) >= 1
    case OverdueFetched(inv) => inv in db.terms && inv in db.status && Rank(db.status[inv]) >= 2
    case OverdueReady(inv, existing, penalty, rate, dailyRate) =>
      && inv in db.terms && inv in db.status && Rank(db.status[inv]) >= 2
      && (existing.Some? ==> IsRowOf(db, existing.value, inv))
      && Penalty.CalculatePenalty(db.terms[inv].face, 1, rate) == Some(penalty)
    case EscalationReady(inv, c, from, days, penalty, rate) =>
      && inv in db.terms && IsRowOf(db, c, inv) && DetermineEscalationLevel(days) >= 1
      && Penalty.CalculatePenalty(db.terms[inv].face, days, rate) == Some(penalty)
    case PaymentFetched(inv, expected) => inv in db.terms && expected != Collected
    case PaymentReady(inv, expected, existing, input) =>
      inv in db.terms && expected != Collected && (existing.Some? ==> IsRowOf(db, existing.value, inv))
    case CollectionPaymentReady(c, amount, paidAt) => c < |db.collections|
    case ManualEscalationReady(c, inv, from) => inv in db.terms && IsRowOf(db, c, inv) && 0 <= from <= 3
    case DeescalationReady(c, from) => c < |db.collections| && 1 <= from <= 3
    case ResolveReady(c, inv, seen) => inv in db.terms && IsRowOf(db, c, inv)
    case DefaultReady(c, inv) => inv in db.terms && IsRowOf(db, c, inv)
    case PaymentDispatch(inv) => PaidCount(db.audit, inv) == 1
    case _ => true
  }

  /** Rows are never deleted or reassigned, statuses never fall back, payments are never forgotten. */
  ghost predicate Extends(db: Db, db': Db) {
    && db'.terms == db.terms && db'.status.Keys == db.status.Keys
    && |db'.collections| >= |db.collections|
    && (forall c :: 0 <= c < |db.collections| ==> db'.collections[c].invoice == db.collections[c].invoice)
    && (forall inv :: inv in db.status ==> Rank(db'.status[inv]) >= Rank(db.status[inv]))
    && (forall inv: InvoiceId :: PaidCount(db'.audit, inv) >= PaidCount(db.audit, inv))
  }

  lemma MemoryStable(db: Db, db': Db, p: Phase)
    requires PaidOnce(db') && Extends(db, db') && MemoryOk(db, p)
    ensures MemoryOk(db', p)
  {
  }

  lemma ReadEstablishesMemory(db0: Db, db: Db, cur: Phase, next: Phase)
    requires DbInv(db0, db) && MemoryOk(db, cur) && CanRead(db, cur, next)
    ensures MemoryOk(db, next)
  {
  }

  // ---------------------------------------------------------------------
  // One statement at a time
  // ---------------------------------------------------------------------

  lemma ExtendsTransitive(a: Db, b: Db, c: Db)
    requires Extends(a, b) && Extends(b, c)
    ensures Extends(a, c)
  {
  }

  lemma SwapKeeps(db0: Db, db: Db, inv: InvoiceId, to: InvoiceStatus, from: InvoiceStatus)
    requires DbInv(db0, db) && Rank(from) < Rank(to)
    ensures var db' := CasStatus(db, inv, to, from); DbInv(db0, db') && Extends(db, db')
  {
  }

  lemma AuditKeeps(db0: Db, db: Db, row: AuditRow)
    requires DbInv(db0, db) && !row.InvoicePaid?
    ensures DbInv(db0, Audited(db, row)) && Extends(db, Audited(db, row))
  {
    AuditAppend(db.audit, row, db.terms);
  }

  /** Rewriting a row in place, its invoice, face value and total left alone. */
  lemma RowKeeps(db0: Db, db: Db, c: CollectionId, row: Collection)
    requires DbInv(db0, db) && c < |db.collections| && RowOk(row, db.amlThreshold)
        && SameIdentity(db.collections[c], row)
    ensures var db' := db.(collections := db.collections[c := row]); DbInv(db0, db') && Extends(db, db')
  {
    var db' := db.(collections := db.collections[c := row]);
    forall i | 0 <= i < |db.payments| ensures PaymentOk(db', db.payments[i]) {
      assert PaymentOk(db, db.payments[i]);
    }
  }

  lemma InsertKeeps(db0: Db, db: Db, row: Collection)
    requires DbInv(db0, db) && RowOk(row, db.amlThreshold) && RowAnchored(db, row) && row.totalCollected == 0
    ensures var db' := db.(collections := db.collections + [row]); DbInv(db0, db') && Extends(db, db')
  {
    var db' := db.(collections := db.collections + [row]);
    forall i | 0 <= i < |db.payments|
      ensures PaymentOk(db', db.payments[i]) && db.payments[i].collection != |db.collections| {
      assert PaymentOk(db, db.payments[i]);
    }
    NoPaymentsNoTotal(db.payments, |db.collections|);
  }

  // ---------------------------------------------------------------------
  // One transaction at a time
  // ---------------------------------------------------------------------

  /** A transaction that swaps the invoice status, inserts a row, and writes its audit row. */
  lemma InsertTxnKeeps(
    db0: Db, db: Db, row: Collection, inv: InvoiceId, to: InvoiceStatus, from: InvoiceStatus, entry: AuditRow)
    requires DbInv(db0, db) && RowOk(row, db.amlThreshold) && row.totalCollected == 0
    requires Rank(from) < Rank(to) && !entry.InvoicePaid?
    requires RowAnchored(CasStatus(db, inv, to, from), row)
    ensures var db' := Audited(CasStatus(db.(collections := db.collections + [row]), inv, to, from), entry);
            DbInv(db0, db') && Extends(db, db')
  {
    SwapKeeps(db0, db, inv, to, from);
    var swapped := CasStatus(db, inv, to, from);
    InsertKeeps(db0, swapped, row);
    var inserted := swapped.(collections := swapped.collections + [row]);
    AuditKeeps(db0, inserted, entry);
    ExtendsTransitive(db, swapped, inserted);
    ExtendsTransitive(db, inserted, Audited(inserted, entry));
    assert inserted == CasStatus(db.(collections := db.collections + [row]), inv, to, from);
  }

  lemma StartKeeps(db0: Db, db: Db, inv: InvoiceId, rate: string)
    requires DbInv(db0, db) && MemoryOk(db, StartReady(inv, rate))
    ensures DbInv(db0, Started(db, inv, rate)) && Extends(db, Started(db, inv, rate))
  {
    InsertTxnKeeps(db0, db, NewRow(inv, FaceOf(db, inv), Pending, 0, 0, rate, rate), inv, Collecting, Funded,
      CollectionStarted(inv));
  }

  /** A rewritten row that keeps what identifies it and its total. */
  ghost predicate SameIdentity(row: Collection, row': Collection) {
    row'.invoice == row.invoice && row'.face == row.face && row'.totalCollected == row.totalCollected
  }

  /** A transaction that rewrites one row and writes its audit row. */
  lemma RewriteKeeps(db0: Db, db: Db, db': Db, c: CollectionId, row: Collection, entry: AuditRow)
    requires DbInv(db0, db) && c < |db.collections| && RowOk(row, db.amlThreshold)
        && SameIdentity(db.collections[c], row)
    requires !entry.InvoicePaid? && db' == Audited(db.(collections := db.collections[c := row]), entry)
    ensures DbInv(db0, db') && Extends(db, db')
  {
    var written := db.(collections := db.collections[c := row]);
    RowKeeps(db0, db, c, row);
    AuditKeeps(db0, written, entry);
    ExtendsTransitive(db, written, db');
  }

  /** The same with a status swap in between. */
  lemma RewriteSwapKeeps(
    db0: Db, db: Db, db': Db, c: CollectionId, row: Collection, inv: InvoiceId, to: InvoiceStatus,
    from: InvoiceStatus, entry: AuditRow)
    requires DbInv(db0, db) && c < |db.collections| && RowOk(row, db.amlThreshold)
        && SameIdentity(db.collections[c], row)
    requires Rank(from) < Rank(to) && !entry.InvoicePaid?
    requires db' == Audited(CasStatus(db.(collections := db.collections[c := row]), inv, to, from), entry)
    ensures DbInv(db0, db') && Extends(db, db')
  {
    var written := db.(collections := db.collections[c := row]);
    RowKeeps(db0, db, c, row);
    SwapKeeps(db0, written, inv, to, from);
    var swapped := CasStatus(written, inv, to, from);
    AuditKeeps(db0, swapped, entry);
    ExtendsTransitive(db, written, swapped);
    ExtendsTransitive(db, swapped, db');
  }

  lemma OverdueKeeps(
    db0: Db, db: Db, inv: InvoiceId, existing: Option<CollectionId>, penalty: nat, rate: string, dailyRate: string)
    requires DbInv(db0, db) && MemoryOk(db, OverdueReady(inv, existing, penalty, rate, dailyRate))
    ensures var db' := MarkedOverdue(db, inv, existing, penalty, rate, dailyRate); DbInv(db0, db') && Extends(db, db')
  {
    match existing
    case Some(c) => OverdueRowKeeps(db0, db, inv, c, penalty, rate, dailyRate);
    case None =>
      var row := NewRow(inv, FaceOf(db, inv), RowOverdue, 1, penalty, rate, dailyRate);
      InsertTxnKeeps(db0, db, row, inv, Overdue, Collecting, InvoiceOverdue(inv));
  }

  lemma OverdueRowKeeps(
    db0: Db, db: Db, inv: InvoiceId, c: CollectionId, penalty: nat, rate: string, dailyRate: string)
    requires DbInv(db0, db) && MemoryOk(db, OverdueReady(inv, Some(c), penalty, rate, dailyRate))
    ensures var db' := MarkedOverdue(db, inv, Some(c), penalty, rate, dailyRate); DbInv(db0, db') && Extends(db, db')
  {
    var row := WithEscalation(db.collections[c], RowOverdue, 0, 1, penalty, rate);
    var db' := MarkedOverdue(db, inv, Some(c), penalty, rate, dailyRate);
    MarkedOverdueRewrites(db, inv, c, penalty, rate, dailyRate, row);
    RewriteSwapKeeps(db0, db, db', c, row, inv, Overdue, Collecting, InvoiceOverdue(inv));
  }

  lemma MarkedOverdueRewrites(
    db: Db, inv: InvoiceId, c: CollectionId, penalty: nat, rate: string, dailyRate: string, row: Collection)
    requires RowsOk(db) && MemoryOk(db, OverdueReady(inv, Some(c), penalty, rate, dailyRate))
    requires row == WithEscalation(db.collections[c], RowOverdue, 0, 1, penalty, rate)
    ensures RowOk(row, db.amlThreshold) && SameIdentity(db.collections[c], row)
    ensures var written := db.(collections := db.collections[c := row]);
            MarkedOverdue(db, inv, Some(c), penalty, rate, dailyRate)
            == Audited(CasStatus(written, inv, Overdue, Collecting), InvoiceOverdue(inv))
  {
    assert RowOk(db.collections[c], db.amlThreshold) && RowAnchored(db, db.collections[c]);
  }

  lemma EscalationKeeps(
    db0: Db, db: Db, inv: InvoiceId, c: CollectionId, from: int, days: nat, penalty: nat, rate: string)
    requires DbInv(db0, db) && MemoryOk(db, EscalationReady(inv, c, from, days, penalty, rate))
    ensures var db' := EscalationTxn(db, inv, c, from, days, penalty, rate); DbInv(db0, db') && Extends(db, db')
  {
    var level := DetermineEscalationLevel(days);
    var sar := CheckSarFlag(level, FaceOf(db, inv), db.amlThreshold);
    var row := WithSarFlag(WithEscalation(db.collections[c], Escalated, level, days, penalty, rate), sar);
    RewriteKeeps(db0, db, EscalationTxn(db, inv, c, from, days, penalty, rate), c, row,
      CollectionEscalated(c, from, level));
  }

  lemma ManualEscalationKeeps(db0: Db, db: Db, c: CollectionId, inv: InvoiceId, from: int)
    requires DbInv(db0, db) && MemoryOk(db, ManualEscalationReady(c, inv, from))
    ensures var db' := ManualEscalationTxn(db, c, inv, from); DbInv(db0, db') && Extends(db, db')
  {
    var level := Min(from + 1, 3);
    var sar := CheckSarFlag(level, FaceOf(db, inv), db.amlThreshold);
    RewriteKeeps(db0, db, ManualEscalationTxn(db, c, inv, from), c,
      WithSarFlag(WithLevel(db.collections[c], level), sar), CollectionEscalated(c, from, level));
  }

  lemma DeescalationKeeps(db0: Db, db: Db, c: CollectionId, from: int)
    requires DbInv(db0, db) && MemoryOk(db, DeescalationReady(c, from))
    ensures var db' := DeescalationTxn(db, c, from); DbInv(db0, db') && Extends(db, db')
  {
    var row := WithLevel(db.collections[c], from - 1);
    var row' := if from == 1 then row.(status := RowOverdue) else row;
    RewriteKeeps(db0, db, DeescalationTxn(db, c, from), c, row', CollectionDeescalated(c, from, from - 1));
  }

  lemma ResolveKeeps(db0: Db, db: Db, c: CollectionId, inv: InvoiceId, seen: CollectionStatus)
    requires DbInv(db0, db) && MemoryOk(db, ResolveReady(c, inv, seen))
    ensures var db' := Resolved(db, c, inv, seen); DbInv(db0, db') && Extends(db, db')
  {
    var row := db.collections[c].(status := RowCollected);
    RewriteSwapKeeps(db0, db, Resolved(db, c, inv, seen), c, row, inv, Collected, Overdue, CollectionResolved(c, seen));
  }

  lemma DefaultKeeps(db0: Db, db: Db, c: CollectionId, inv: InvoiceId)
    requires DbInv(db0, db) && MemoryOk(db, DefaultReady(c, inv))
    ensures var db' := WrittenOff(db, c, inv); DbInv(db0, db') && Extends(db, db')
  {
    var row := db.collections[c].(status := BadDebt);
    WrittenOffRewrites(db, c, inv, row);
    RewriteSwapKeeps(db0, db, WrittenOff(db, c, inv), c, row, inv, Defaulted, Overdue, InvoiceDefaulted(c));
  }

  lemma WrittenOffRewrites(db: Db, c: CollectionId, inv: InvoiceId, row: Collection)
    requires RowsOk(db) && c < |db.collections| && row == db.collections[c].(status := BadDebt)
    ensures RowOk(row, db.amlThreshold) && SameIdentity(db.collections[c], row)
    ensures var written := db.(collections := db.collections[c := row]);
            WrittenOff(db, c, inv) == Audited(CasStatus(written, inv, Defaulted, Overdue), InvoiceDefaulted(c))
  {
    assert RowOk(db.collections[c], db.amlThreshold);
  }

  /** A payment row and the total it produces, in one step. */
  lemma RecordKeepsLedger(db: Db, db': Db, p: Payment)
    requires LedgerOk(db) && db'.payments == db.payments + [p] && PaymentOk(db', p)
    requires |db'.collections| == |db.collections|
    requires forall inv: InvoiceId :: PaidCount(db.audit, inv) <= PaidCount(db'.audit, inv) <= 1
    requires forall c :: 0 <= c < |db.collections| ==> db'.collections[c].invoice == db.collections[c].invoice
    requires forall c :: 0 <= c < |db.collections| ==>
        db'.collections[c].totalCollected == TotalAfter(db.collections[c].totalCollected, c, p)
    ensures LedgerOk(db')
  {
    PaymentAppend(db.payments, p);
    forall i | 0 <= i < |db'.payments| ensures PaymentOk(db', db'.payments[i]) {
      if i < |db.payments| {
        assert PaymentOk(db, db.payments[i]);
      }
    }
  }

  lemma CollectionPaymentKeeps(db0: Db, db: Db, c: CollectionId, amount: int, paidAt: int)
    requires DbInv(db0, db) && c < |db.collections| && amount > 0
    ensures var db' := CollectionPaymentTxn(db, c, amount, paidAt).value; DbInv(db0, db') && Extends(db, db')
  {
    var db' := CollectionPaymentTxn(db, c, amount, paidAt).value;
    AuditAppend(db.audit, CollectionPaid(c, amount), db.terms);
    RecordKeepsLedger(db, db', Payment(c, amount, paidAt, false));
  }

  /** The money side of a whole-invoice payment: one more paid invoice, one reduction by its face value. */
  lemma PaymentKeepsLimits(db0: Db, db: Db, db': Db, inv: InvoiceId, from: InvoiceStatus, amount: int)
    requires SameInvoices(db0, db) && LimitsConserved(db0, db) && PaidOnce(db)
    requires HasStatus(db, inv, from) && from != Collected
    requires db'.terms == db.terms && db'.amlThreshold == db.amlThreshold
        && db'.systemUserKnown == db.systemUserKnown && db'.status == db.status[inv := Collected]
    requires db'.audit == db.audit + [InvoicePaid(inv, from, amount)]
    requires db'.buyers.Keys == db.buyers.Keys
    requires forall b :: b in db.buyers && b != db.terms[inv].buyer ==> db'.buyers[b] == db.buyers[b]
    requires var b := db.terms[inv].buyer;
             && 0 <= db'.buyers[b].score <= 100
             && 0 <= db'.buyers[b].usedLimit == db.buyers[b].usedLimit - db.terms[inv].face
    ensures SameInvoices(db0, db') && LimitsConserved(db0, db') && PaidOnce(db')
    ensures PaidCount(db.audit, inv) == 0 && PaidCount(db'.audit, inv) == 1
    ensures forall i: InvoiceId :: i != inv ==> PaidCount(db'.audit, i) == PaidCount(db.audit, i)
  {
    assert PaidCount(db.audit, inv) == 0;
    AuditAppend(db.audit, InvoicePaid(inv, from, amount), db.terms);
  }

  /** What a committed whole-invoice payment did, table by table. */
  ghost predicate PaidInFull(
    db: Db, db': Db, inv: InvoiceId, from: InvoiceStatus, existing: Option<CollectionId>, input: PaymentInput) {
    && HasStatus(db, inv, from) && db.terms[inv].buyer in db.buyers && existing.Some? && input.amount > 0
    && db'.terms == db.terms && db'.amlThreshold == db.amlThreshold && db'.systemUserKnown == db.systemUserKnown
       && db'.status == db.status[inv := Collected]
    && db'.audit == db.audit + [InvoicePaid(inv, from, input.amount)]
    && db'.payments == db.payments + [Payment(existing.value, input.amount, input.paidAt, true)]
    && (var b := db.terms[inv].buyer;
        && db.terms[inv].face <= db.buyers[b].usedLimit
        && db'.buyers == db.buyers[b :=
           Buyer(db.buyers[b].usedLimit - db.terms[inv].face,
                 AdjustedScore(db.buyers[b].score, DaysLate(input.paidAt, db.terms[inv].dueAt)))])
    && |db'.collections| == |db.collections|
    && (forall c :: 0 <= c < |db.collections| ==>
         db'.collections[c] == ClosedRow(db.collections[c], c, existing, input.amount))
  }

  ghost function ClosedRow(row: Collection, c: CollectionId, existing: Option<CollectionId>, amount: int): Collection {
    if existing == Some(c) then Closed(row, amount) else row
  }

  lemma ClosedRowOk(row: Collection, c: CollectionId, existing: Option<CollectionId>, amount: int, threshold: nat)
    requires RowOk(row, threshold)
    ensures var row' := ClosedRow(row, c, existing, amount);
            RowOk(row', threshold) && row'.invoice == row.invoice && row'.face == row.face
  {
  }

  lemma PaymentShape(db: Db, inv: InvoiceId, from: InvoiceStatus, existing: Option<CollectionId>, input: PaymentInput)
    requires PaymentTxn(db, inv, from, existing, input).Some?
    ensures PaidInFull(db, PaymentTxn(db, inv, from, existing, input).value, inv, from, existing, input)
  {
  }

  /** The collection side: at most the row found earlier changes, and it is closed. */
  lemma PaymentKeepsRows(
    db: Db, db': Db, inv: InvoiceId, from: InvoiceStatus, existing: Option<CollectionId>, input: PaymentInput)
    requires RowsOk(db) && PaidInFull(db, db', inv, from, existing, input)
    ensures RowsOk(db')
  {
    forall c | 0 <= c < |db.collections|
      ensures RowOk(db'.collections[c], db'.amlThreshold) && RowAnchored(db', db'.collections[c])
    {
      var row, row' := db.collections[c], db'.collections[c];
      assert row' == ClosedRow(row, c, existing, input.amount);
      assert RowOk(row, db.amlThreshold) && RowAnchored(db, row);
      ClosedRowOk(row, c, existing, input.amount, db.amlThreshold);
    }
  }

  lemma PaidInFullKeeps(
    db0: Db, db: Db, db': Db, inv: InvoiceId, from: InvoiceStatus, existing: Option<CollectionId>,
    input: PaymentInput)
    requires DbInv(db0, db) && MemoryOk(db, PaymentReady(inv, from, existing, input))
        && PaidInFull(db, db', inv, from, existing, input)
    ensures DbInv(db0, db') && Extends(db, db') && PaidCount(db.audit, inv) == 0 && PaidCount(db'.audit, inv) == 1
  {
    PaymentKeepsLimits(db0, db, db', inv, from, input.amount);
    PaymentKeepsRows(db, db', inv, from, existing, input);
    PaymentKeepsLedger(db, db', inv, from, existing, input);
    PaymentExtends(db, db', inv, from, existing, input);
  }

  /** The ledger side: the full payment overwrites the total of the row it closes. */
  lemma PaymentKeepsLedger(
    db: Db, db': Db, inv: InvoiceId, from: InvoiceStatus, existing: Option<CollectionId>, input: PaymentInput)
    requires LedgerOk(db) && PaidOnce(db') && PaidInFull(db, db', inv, from, existing, input)
    requires IsRowOf(db, existing.value, inv)
    requires PaidCount(db.audit, inv) == 0 && PaidCount(db'.audit, inv) == 1
    requires forall i: InvoiceId :: i != inv ==> PaidCount(db'.audit, i) == PaidCount(db.audit, i)
    ensures LedgerOk(db')
  {
    RecordKeepsLedger(db, db', Payment(existing.value, input.amount, input.paidAt, true));
  }

  lemma PaymentExtends(
    db: Db, db': Db, inv: InvoiceId, from: InvoiceStatus, existing: Option<CollectionId>, input: PaymentInput)
    requires PaidInFull(db, db', inv, from, existing, input)
    requires forall i: InvoiceId :: PaidCount(db.audit, i) <= PaidCount(db'.audit, i)
    ensures Extends(db, db')
  {
  }

  lemma PaymentKeeps(
    db0: Db, db: Db, inv: InvoiceId, from: InvoiceStatus, existing: Option<CollectionId>, input: PaymentInput)
    requires DbInv(db0, db) && MemoryOk(db, PaymentReady(inv, from, existing, input))
    requires PaymentTxn(db, inv, from, existing, input).Some?
    ensures var db' := PaymentTxn(db, inv, from, existing, input).value;
            DbInv(db0, db') && Extends(db, db') && PaidCount(db.audit, inv) == 0 && PaidCount(db'.audit, inv) == 1
  {
    PaymentShape(db, inv, from, existing, input);
    PaidInFullKeeps(db0, db, PaymentTxn(db, inv, from, existing, input).value, inv, from, existing, input);
  }

  // ---------------------------------------------------------------------
  // Every step, every run
  // ---------------------------------------------------------------------

  /** Settlement jobs belong to paid invoices; a worker about to enqueue one is the only source of it. */
  ghost predicate JobsOk(s: State) {
    && (forall inv: InvoiceId :: s.settlementJobs[inv] <= PaidCount(s.db.audit, inv))
    && (forall w :: w in s.workers && s.workers[w].PaymentDispatch? ==> s.settlementJobs[s.workers[w].inv] == 0)
    && (forall w, v :: w in s.workers && v in s.workers && w != v && s.workers[w].PaymentDispatch? ==>
        s.workers[v] != s.workers[w])
  }

  ghost predicate StateInv(db0: Db, s: State) {
    DbInv(db0, s.db) && JobsOk(s) && forall w :: w in s.workers ==> MemoryOk(s.db, s.workers[w])
  }

  lemma TxnKeeps(db0: Db, db: Db, p: Phase)
    requires DbInv(db0, db) && MemoryOk(db, p) && CommitTxn(db, p).Some?
    ensures DbInv(db0, CommitTxn(db, p).value) && Extends(db, CommitTxn(db, p).value)
    ensures p.PaymentReady? ==> PaidCount(db.audit, p.inv) == 0 && PaidCount(CommitTxn(db, p).value.audit, p.inv) == 1
  {
    match p
    case StartReady(_, _) => SystemTxnKeeps(db0, db, p);
    case OverdueReady(_, _, _, _, _) => SystemTxnKeeps(db0, db, p);
    case DefaultReady(_, _) => SystemTxnKeeps(db0, db, p);
    case EscalationReady(inv, c, from, days, penalty, rate) =>
      EscalationKeeps(db0, db, inv, c, from, days, penalty, rate);
    case PaymentReady(inv, expected, existing, input) => PaymentKeeps(db0, db, inv, expected, existing, input);
    case CollectionPaymentReady(c, amount, paidAt) => CollectionPaymentKeeps(db0, db, c, amount, paidAt);
    case ManualEscalationReady(c, inv, from) => ManualEscalationKeeps(db0, db, c, inv, from);
    case DeescalationReady(c, from) => DeescalationKeeps(db0, db, c, from);
    case ResolveReady(c, inv, seen) => ResolveKeeps(db0, db, c, inv, seen);
    case _ =>
  }

  /** The transactions that run in the name of SYSTEM. */
  lemma SystemTxnKeeps(db0: Db, db: Db, p: Phase)
    requires DbInv(db0, db) && MemoryOk(db, p) && CommitTxn(db, p).Some?
    requires p.StartReady? || p.OverdueReady? || p.DefaultReady?
    ensures DbInv(db0, CommitTxn(db, p).value) && Extends(db, CommitTxn(db, p).value)
  {
    match p
    case StartReady(inv, rate) => StartKeeps(db0, db, inv, rate);
    case OverdueReady(inv, existing, penalty, rate, dailyRate) =>
      OverdueKeeps(db0, db, inv, existing, penalty, rate, dailyRate);
    case DefaultReady(c, inv) => DefaultKeeps(db0, db, c, inv);
  }

  lemma AdoptJobs(s: State, w: WorkerId, db': Db, p': Phase)
    requires JobsOk(s) && Extends(s.db, db')
    requires forall v :: v in s.workers && s.workers[v].PaymentDispatch? ==>
        PaidCount(s.db.audit, s.workers[v].inv) == 1
    requires p'.PaymentDispatch? ==> PaidCount(s.db.audit, p'.inv) == 0
    ensures JobsOk(s.(db := db', workers := s.workers[w := p']))
  {
  }

  /** A committed database and the committer's next phase fit in with every other worker. */
  lemma AdoptKeeps(db0: Db, s: State, w: WorkerId, db': Db, p': Phase)
    requires StateInv(db0, s) && DbInv(db0, db') && Extends(s.db, db') && MemoryOk(db', p')
    requires p'.PaymentDispatch? ==> PaidCount(s.db.audit, p'.inv) == 0
    ensures StateInv(db0, s.(db := db', workers := s.workers[w := p']))
  {
    forall v | v in s.workers
      ensures MemoryOk(db', s.workers[v])
          && (s.workers[v].PaymentDispatch? ==> PaidCount(s.db.audit, s.workers[v].inv) == 1)
    {
      MemoryStable(s.db, db', s.workers[v]);
    }
    AdoptJobs(s, w, db', p');
  }

  lemma CommitKeeps(db0: Db, s: State, w: WorkerId)
    requires StateInv(db0, s)
    ensures StateInv(db0, Next(s, Commit(w)))
  {
    var p := PhaseOf(s, w);
    if CommitTxn(s.db, p).Some? {
      TxnKeeps(db0, s.db, p);
      AdoptKeeps(db0, s, w, CommitTxn(s.db, p).value, AfterCommit(p));
    }
  }

  lemma ElsewhereKeepsDb(db0: Db, db: Db, inv: InvoiceId, to: InvoiceStatus)
    requires DbInv(db0, db) && inv in db.status && Rank(db.status[inv]) == 0
    ensures var db' := db.(status := db.status[inv := to]); DbInv(db0, db') && Extends(db, db')
  {
  }

  lemma ElsewhereKeeps(db0: Db, s: State, inv: InvoiceId, to: InvoiceStatus)
    requires StateInv(db0, s)
    ensures StateInv(db0, Next(s, Elsewhere(inv, to)))
  {
    if inv in s.db.status && Rank(s.db.status[inv]) == 0 && Rank(to) <= 1 {
      ElsewhereKeepsDb(db0, s.db, inv, to);
      var db' := s.db.(status := s.db.status[inv := to]);
      forall w | w in s.workers ensures MemoryOk(db', s.workers[w]) {
        MemoryStable(s.db, db', s.workers[w]);
      }
    }
  }

  /** A worker moves to a phase its memory supports, with no job of its own to enqueue. */
  lemma MoveKeeps(db0: Db, s: State, w: WorkerId, p: Phase)
    requires StateInv(db0, s) && MemoryOk(s.db, p) && !p.PaymentDispatch?
    ensures StateInv(db0, s.(workers := s.workers[w := p]))
  {
  }

  lemma DispatchKeeps(db0: Db, s: State, w: WorkerId)
    requires StateInv(db0, s)
    ensures StateInv(db0, Next(s, Dispatch(w)))
  {
    if PhaseOf(s, w).PaymentDispatch? {
      var inv := PhaseOf(s, w).inv;
      assert MemoryOk(s.db, PhaseOf(s, w));
      MoveKeeps(db0, s, w, Idle);
      JobEnqueued(s, w, inv);
    }
  }

  lemma JobEnqueued(s: State, w: WorkerId, inv: InvoiceId)
    requires JobsOk(s) && PhaseOf(s, w) == PaymentDispatch(inv) && PaidCount(s.db.audit, inv) == 1
    ensures JobsOk(s.(settlementJobs := s.settlementJobs + multiset{inv}, workers := s.workers[w := Idle]))
  {
  }

  lemma StepKeeps(db0: Db, s: State, a: Action)
    requires StateInv(db0, s)
    ensures StateInv(db0, Next(s, a))
  {
    match a
    case Read(w, next) =>
      if CanRead(s.db, PhaseOf(s, w), next) {
        ReadEstablishesMemory(db0, s.db, PhaseOf(s, w), next);
        MoveKeeps(db0, s, w, next);
      }
    case Commit(w) => CommitKeeps(db0, s, w);
    case Rollback(w) => MoveKeeps(db0, s, w, Idle);
    case Dispatch(w) => DispatchKeeps(db0, s, w);
    case Elsewhere(inv, to) => ElsewhereKeeps(db0, s, inv, to);
  }

  lemma {:induction false} RunKeeps(db0: Db, s: State, actions: seq<Action>)
    requires StateInv(db0, s)
    ensures StateInv(db0, Run(s, actions))
    decreases |actions|
  {
    if actions != [] {
      StepKeeps(db0, s, actions[0]);
      RunKeeps(db0, Next(s, actions[0]), actions[1..]);
    }
  }

  lemma InitialInv(s: State)
    requires Initial(s)
    ensures StateInv(s.db, s)
  {
  }

  // ---------------------------------------------------------------------
  // The guarantees
  // ---------------------------------------------------------------------

  /** Whatever payers, officers, schedulers and failures interleave: each invoice reduces its buyer's
      limit at most once, every limit is the initial one less the faces of that buyer's paid invoices
      and never negative, and no invoice gets two settlement jobs or one without its payment. */
  lemma LimitReducedOncePerInvoice(s0: State, actions: seq<Action>)
    requires Initial(s0)
    ensures var s := Run(s0, actions);
            && s.db.buyers.Keys == s0.db.buyers.Keys && s.db.terms == s0.db.terms
            && (forall inv: InvoiceId :: PaidCount(s.db.audit, inv) <= 1)
            && (forall inv: InvoiceId :: PaidCount(s.db.audit, inv) == 1 ==> HasStatus(s.db, inv, Collected))
            && (forall inv: InvoiceId :: s.settlementJobs[inv] <= PaidCount(s.db.audit, inv))
            && (forall b :: b in s.db.buyers ==>
                 0 <= s.db.buyers[b].usedLimit == s0.db.buyers[b].usedLimit - PaidFaces(s.db.audit, s.db.terms, b))
  {
    InitialInv(s0);
    RunKeeps(s0.db, s0, actions);
  }

  /** After every run each collection row is coherent: level within 0..3, escalated exactly when the
      level is positive among the open statuses, flagged for SAR at level 3 above the threshold, and
      carrying the penalty of its own days and last rate. */
  lemma RowsCoherent(s0: State, actions: seq<Action>, c: CollectionId)
    requires Initial(s0) && c < |Run(s0, actions).db.collections|
    ensures var row := Run(s0, actions).db.collections[c];
            && 0 <= row.level <= 3
            && (row.status == Pending || row.status == RowOverdue || row.status == Escalated ==>
                (row.status == Escalated <==> row.level >= 1))
            && (row.level == 3 && row.face >= s0.db.amlThreshold ==> row.sarFlagged)
            && row.invoice in s0.db.terms && row.face == s0.db.terms[row.invoice].face
            && (if row.days == 0 then row.penalty == 0
                else Penalty.CalculatePenalty(row.face, row.days, row.rate) == Some(row.penalty))
  {
    InitialInv(s0);
    RunKeeps(s0.db, s0, actions);
  }

  /** Until the invoice is paid in full, total_collected is the sum of the recorded payments;
      afterwards it is that sum less whatever was recorded before the last overwriting payment. */
  lemma TotalIsSumOfPayments(s0: State, actions: seq<Action>, c: CollectionId)
    requires Initial(s0) && c < |Run(s0, actions).db.collections|
    ensures var db := Run(s0, actions).db;
            && db.collections[c].totalCollected
               == SumOf(db.payments, c) - SumOf(db.payments[..LastFull(db.payments, c)], c)
            && (PaidCount(db.audit, db.collections[c].invoice) == 0 ==>
                db.collections[c].totalCollected == SumOf(db.payments, c))
            && (forall i :: 0 <= i < |db.payments| ==> db.payments[i].amount > 0)
  {
    InitialInv(s0);
    RunKeeps(s0.db, s0, actions);
    var db := Run(s0, actions).db;
    ReplayIsTailSum(db.payments, c);
    if PaidCount(db.audit, db.collections[c].invoice) == 0 {
      forall i | 0 <= i < |db.payments| && db.payments[i].collection == c ensures !db.payments[i].full {
        assert PaymentOk(db, db.payments[i]);
      }
      NoFullFromStart(db.payments, c);
    }
    forall i | 0 <= i < |db.payments| ensures db.payments[i].amount > 0 {
      assert PaymentOk(db, db.payments[i]);
    }
  }

  /** The position of the last full payment of `c`, or 0. */
  function LastFull(payments: seq<Payment>, c: CollectionId): (k: nat)
    ensures k <= |payments|
  {
    if payments == [] then 0
    else
      var n := |payments| - 1;
      if payments[n].collection == c && payments[n].full then n else LastFull(payments[..n], c)
  }

  lemma {:induction false} ReplayIsTailSum(payments: seq<Payment>, c: CollectionId)
    ensures Replay(payments, c) == SumOf(payments, c) - SumOf(payments[..LastFull(payments, c)], c)
  {
    if payments != [] {
      var n := |payments| - 1;
      ReplayIsTailSum(payments[..n], c);
      var k := LastFull(payments[..n], c);
      assert payments[..n][..k] == payments[..k];
    }
  }

  lemma {:induction false} NoFullFromStart(payments: seq<Payment>, c: CollectionId)
    requires forall i :: 0 <= i < |payments| && payments[i].collection == c ==> !payments[i].full
    ensures LastFull(payments, c) == 0
  {
    if payments != [] {
      NoFullFromStart(payments[..|payments| - 1], c);
    }
  }

  // ---------------------------------------------------------------------
  // Status changes
  // ---------------------------------------------------------------------

  /** The audit row announces that `inv` moved from `was` to `becomes`. */
  ghost predicate Announces(db: Db, row: AuditRow, inv: InvoiceId, was: InvoiceStatus, becomes: InvoiceStatus) {
    match row
    case CollectionStarted(i) => i == inv && was == Funded && becomes == Collecting
    case InvoiceOverdue(i) => i == inv && was == Collecting && becomes == Overdue
    case InvoicePaid(i, from, _) => i == inv && was == from && becomes == Collected
    case CollectionResolved(c, _) => IsRowOf(db, c, inv) && was == Overdue && becomes == Collected
    case InvoiceDefaulted(c) => IsRowOf(db, c, inv) && was == Overdue && becomes == Defaulted
    case _ => false
  }

  /** From `db` to `db'` the status of `inv` is kept, or raised with a matching audit row. */
  ghost predicate KeptOrAnnounced(db: Db, db': Db, inv: InvoiceId)
    requires inv in db.status
  {
    && inv in db'.status
    && (db'.status[inv] == db.status[inv] ||
        (&& 1 <= Rank(db.status[inv]) < Rank(db'.status[inv])
         && |db'.audit| == |db.audit| + 1 && db.audit <= db'.audit
         && Announces(db', db'.audit[|db.audit|], inv, db.status[inv], db'.status[inv])))
  }

  lemma SwapAnnounces(
    db: Db, written: Db, i: InvoiceId, to: InvoiceStatus, from: InvoiceStatus, row: AuditRow, inv: InvoiceId)
    requires inv in db.status && written.status == db.status && written.audit == db.audit
    requires 1 <= Rank(from) < Rank(to) && Announces(written, row, i, from, to)
    ensures KeptOrAnnounced(db, Audited(CasStatus(written, i, to, from), row), inv)
  {
    assert (db.audit + [row])[|db.audit|] == row;
  }

  lemma TxnAnnounces(db: Db, p: Phase, inv: InvoiceId)
    requires RowsOk(db) && MemoryOk(db, p) && inv in db.status && CommitTxn(db, p).Some?
    ensures KeptOrAnnounced(db, CommitTxn(db, p).value, inv)
  {
    match p
    case StartReady(i, rate) => StartAnnounces(db, i, rate, inv);
    case OverdueReady(i, existing, penalty, rate, dailyRate) =>
      OverdueAnnounces(db, i, existing, penalty, rate, dailyRate, inv);
    case PaymentReady(i, from, existing, input) => PaymentAnnounces(db, i, from, existing, input, inv);
    case ResolveReady(c, i, seen) => ResolveAnnounces(db, c, i, seen, inv);
    case DefaultReady(c, i) => DefaultAnnounces(db, c, i, inv);
    case _ =>
  }

  lemma StartAnnounces(db: Db, i: InvoiceId, rate: string, inv: InvoiceId)
    requires inv in db.status
    ensures KeptOrAnnounced(db, Started(db, i, rate), inv)
  {
    var row := NewRow(i, FaceOf(db, i), Pending, 0, 0, rate, rate);
    SwapAnnounces(db, db.(collections := db.collections + [row]), i, Collecting, Funded, CollectionStarted(i), inv);
  }

  lemma PaymentAnnounces(
    db: Db, i: InvoiceId, from: InvoiceStatus, existing: Option<CollectionId>, input: PaymentInput, inv: InvoiceId)
    requires RowsOk(db) && inv in db.status && from != Collected && PaymentTxn(db, i, from, existing, input).Some?
    requires IsRowOf(db, existing.value, i)
    ensures KeptOrAnnounced(db, PaymentTxn(db, i, from, existing, input).value, inv)
  {
    assert RowAnchored(db, db.collections[existing.value]);
    PaymentShape(db, i, from, existing, input);
  }

  lemma DefaultAnnounces(db: Db, c: CollectionId, i: InvoiceId, inv: InvoiceId)
    requires inv in db.status && IsRowOf(db, c, i)
    ensures KeptOrAnnounced(db, WrittenOff(db, c, i), inv)
  {
    var written := UpdateRow(db, c, (row: Collection) => row.(status := BadDebt));
    SwapAnnounces(db, written, i, Defaulted, Overdue, InvoiceDefaulted(c), inv);
  }

  lemma OverdueAnnounces(
    db: Db, i: InvoiceId, existing: Option<CollectionId>, penalty: nat, rate: string, dailyRate: string,
    inv: InvoiceId)
    requires inv in db.status
    ensures KeptOrAnnounced(db, MarkedOverdue(db, i, existing, penalty, rate, dailyRate), inv)
  {
    var written := match existing
      case Some(c) => UpdateRow(db, c, (row: Collection) => WithEscalation(row, RowOverdue, 0, 1, penalty, rate))
      case None => db.(collections :=
        db.collections + [NewRow(i, FaceOf(db, i), RowOverdue, 1, penalty, rate, dailyRate)]);
    SwapAnnounces(db, written, i, Overdue, Collecting, InvoiceOverdue(i), inv);
  }

  lemma ResolveAnnounces(db: Db, c: CollectionId, i: InvoiceId, seen: CollectionStatus, inv: InvoiceId)
    requires inv in db.status && IsRowOf(db, c, i)
    ensures KeptOrAnnounced(db, Resolved(db, c, i, seen), inv)
  {
    var written := UpdateRow(db, c, (row: Collection) => row.(status := RowCollected));
    SwapAnnounces(db, written, i, Collected, Overdue, CollectionResolved(c, seen), inv);
  }

  /** A status change by this module starts from funded or beyond, strictly raises the rank and is
      announced by the one audit row of the same transaction; the rest of the platform never lowers a
      rank. */
  lemma ChangeIsAuditedAndRises(db0: Db, s: State, a: Action, inv: InvoiceId)
    requires StateInv(db0, s) && inv in s.db.status
    ensures inv in Next(s, a).db.status
    ensures Rank(s.db.status[inv]) <= Rank(Next(s, a).db.status[inv])
    ensures !a.Elsewhere? ==> KeptOrAnnounced(s.db, Next(s, a).db, inv)
  {
    if a.Commit? && CommitTxn(s.db, PhaseOf(s, a.worker)).Some? {
      TxnAnnounces(s.db, PhaseOf(s, a.worker), inv);
    }
  }

  /** How often this module changed the status of `inv` in a run. */
  ghost function Changes(s: State, actions: seq<Action>, inv: InvoiceId): nat
    decreases |actions|
  {
    if actions == [] then 0
    else
      var s' := Next(s, actions[0]);
      var changed := !actions[0].Elsewhere? && inv in s.db.status && inv in s'.db.status
        && s'.db.status[inv] != s.db.status[inv];
      (if changed then 1 else 0) + Changes(s', actions[1..], inv)
  }

  /** The rank, counting everything before funding as funded: this module changes nothing earlier. */
  function FundedRank(s: InvoiceStatus): (r: nat)
    ensures 1 <= r <= 5
  {
    if Rank(s) == 0 then 1 else Rank(s)
  }

  lemma {:induction false} ChangesBoundedByRank(db0: Db, s: State, actions: seq<Action>, inv: InvoiceId)
    requires StateInv(db0, s) && inv in s.db.status
    ensures inv in Run(s, actions).db.status
    ensures Changes(s, actions, inv) + FundedRank(s.db.status[inv]) <= FundedRank(Run(s, actions).db.status[inv])
    ensures Rank(s.db.status[inv]) <= Rank(Run(s, actions).db.status[inv])
    decreases |actions|
  {
    if actions != [] {
      StepKeeps(db0, s, actions[0]);
      ChangeIsAuditedAndRises(db0, s, actions[0], inv);
      ChangesBoundedByRank(db0, Next(s, actions[0]), actions[1..], inv);
    }
  }

  /** An invoice changes at most four times in any run, fewer if it starts further on, and once
      collected it stays collected. */
  lemma AtMostFourChanges(s0: State, before: seq<Action>, after: seq<Action>, inv: InvoiceId)
    requires Initial(s0) && inv in s0.db.terms
    ensures Changes(s0, before, inv) <= 5 - FundedRank(s0.db.status[inv]) <= 4
    ensures var s := Run(s0, before); var s' := Run(s, after);
            HasStatus(s.db, inv, Collected) ==> HasStatus(s'.db, inv, Collected) && Changes(s, after, inv) == 0
  {
    InitialInv(s0);
    RunKeeps(s0.db, s0, before);
    ChangesBoundedByRank(s0.db, s0, before, inv);
    var s := Run(s0, before);
    if HasStatus(s.db, inv, Collected) {
      CollectedIsFinal(s0.db, s, after, inv);
    }
  }

  lemma CollectedIsFinal(db0: Db, s: State, actions: seq<Action>, inv: InvoiceId)
    requires StateInv(db0, s) && HasStatus(s.db, inv, Collected)
    ensures HasStatus(Run(s, actions).db, inv, Collected) && Changes(s, actions, inv) == 0
  {
    RunKeeps(db0, s, actions);
    ChangesBoundedByRank(db0, s, actions, inv);
  }

  /** The same of every step of every run: a status changes upward, and only with its audit row. */
  lemma EveryChangeIsAudited(s0: State, before: seq<Action>, a: Action, inv: InvoiceId)
    requires Initial(s0) && inv in s0.db.terms
    ensures var db, db' := Run(s0, before).db, Next(Run(s0, before), a).db;
            && inv in db.status && inv in db'.status && Rank(db.status[inv]) <= Rank(db'.status[inv])
            && (a.Elsewhere? || KeptOrAnnounced(db, db', inv))
  {
    InitialInv(s0);
    RunKeeps(s0.db, s0, before);
    ChangeIsAuditedAndRises(s0.db, Run(s0, before), a, inv);
  }

  // ---------------------------------------------------------------------
  // Escalating and de-escalating
  // ---------------------------------------------------------------------

  function RaisedRow(row: Collection, sar: bool): Collection {
    WithSarFlag(WithLevel(row, Min(row.level + 1, 3)), sar)
  }

  function LoweredRow(row: Collection): Collection {
    if row.level == 1 then WithLevel(row, 0).(status := RowOverdue) else WithLevel(row, row.level - 1)
  }

  lemma EscalationRewrites(db: Db, c: CollectionId, inv: InvoiceId)
    requires c < |db.collections|
    ensures var row := db.collections[c];
            ManualEscalationTxn(db, c, inv, row.level).collections
              == db.collections[c := RaisedRow(row,
                CheckSarFlag(Min(row.level + 1, 3), FaceOf(db, inv), db.amlThreshold))]
  {
  }

  lemma DeescalationRewrites(db: Db, c: CollectionId)
    requires c < |db.collections|
    ensures DeescalationTxn(db, c, db.collections[c].level).collections
        == db.collections[c := LoweredRow(db.collections[c])]
  {
  }

  lemma UndoRow(row: Collection, sar: bool, threshold: nat)
    requires RowOk(row, threshold) && row.status != RowCollected
    ensures var up := RaisedRow(row, sar); var down := LoweredRow(up);
            && up.level == Min(row.level + 1, 3) && up.status == Escalated
            && (down.(sarFlagged := row.sarFlagged) == row <==>
                (row.status == RowOverdue || row.status == Escalated) && row.level < 3)
            && down.sarFlagged == (row.sarFlagged || sar)
  {
  }

  /** From `rows` to `down` by way of `up`: row `c` one level up, if there is one, and down again. It comes
      back, but for the SAR flag, exactly when it was overdue or escalated and below level 3. */
  ghost predicate UndoneIff(
    rows: seq<Collection>, up: seq<Collection>, down: seq<Collection>, c: CollectionId, sar: bool) {
    && |up| == |down| == |rows| && c < |rows|
    && (forall d :: 0 <= d < |rows| && d != c ==> down[d] == rows[d])
    && up[c].level == Min(rows[c].level + 1, 3) && up[c].status == Escalated
    && (down[c].(sarFlagged := rows[c].sarFlagged) == rows[c] <==>
          (rows[c].status == RowOverdue || rows[c].status == Escalated) && rows[c].level < 3)
    && down[c].sarFlagged == (rows[c].sarFlagged || sar)
  }

  lemma UndoRows(rows: seq<Collection>, c: CollectionId, sar: bool, threshold: nat)
    requires c < |rows| && RowOk(rows[c], threshold) && rows[c].status != RowCollected
    ensures var up := rows[c := RaisedRow(rows[c], sar)]; UndoneIff(rows, up, up[c := LoweredRow(up[c])], c, sar)
  {
    UndoRow(rows[c], sar, threshold);
  }

  lemma UpAndDown(db: Db, c: CollectionId, inv: InvoiceId, sar: bool)
    requires c < |db.collections|
    requires sar == CheckSarFlag(Min(db.collections[c].level + 1, 3), FaceOf(db, inv), db.amlThreshold)
    ensures var row := db.collections[c];
            var raised := db.collections[c := RaisedRow(row, sar)];
            var up := ManualEscalationTxn(db, c, inv, row.level);
            && up.collections == raised
            && DeescalationTxn(up, c, raised[c].level).collections == raised[c := LoweredRow(raised[c])]
  {
    EscalationRewrites(db, c, inv);
    DeescalationRewrites(ManualEscalationTxn(db, c, inv, db.collections[c].level), c);
  }

  /** A de-escalation right after a manual escalation undoes it exactly when the row was overdue or
      escalated and below level 3, except for the SAR flag, which stays if level 3 raised it. */
  lemma UndoEscalationIff(db: Db, c: CollectionId, inv: InvoiceId)
    requires IsRowOf(db, c, inv) && RowOk(db.collections[c], db.amlThreshold)
        && db.collections[c].status != RowCollected
    ensures var up := ManualEscalationTxn(db, c, inv, db.collections[c].level);
            && c < |up.collections|
            && UndoneIff(db.collections, up.collections, DeescalationTxn(up, c, up.collections[c].level).collections, c,
                         db.collections[c].level >= 2 && FaceOf(db, inv) >= db.amlThreshold)
  {
    var from := db.collections[c].level;
    var sar := from >= 2 && FaceOf(db, inv) >= db.amlThreshold;
    UpAndDown(db, c, inv, sar);
    UndoRows(db.collections, c, sar, db.amlThreshold);
    var up := ManualEscalationTxn(db, c, inv, from);
    var down := DeescalationTxn(up, c, up.collections[c].level);
    assert UndoneIff(db.collections, up.collections, down.collections, c, sar);
  }
}
