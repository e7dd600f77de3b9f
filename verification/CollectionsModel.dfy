/** The collections module as a state machine: rows, transactions, and any number of workers that
    read outside a transaction and later commit one, roll back, or dispatch post-commit jobs. */
module CollectionsModel {
  import opened Common
  import opened InvoiceStatuses
  import Penalty

  type InvoiceId = nat
  type BuyerId = nat
  type CollectionId = nat
  type WorkerId = nat

  // ---------------------------------------------------------------------
  // Rows
  // ---------------------------------------------------------------------

  /** The invoice columns that collections reads and nobody changes after funding. `dueAt` is the start of
      the due date in milliseconds. */
  datatype Terms = Terms(buyer: BuyerId, face: nat, dueAt: int)

  datatype CollectionStatus = Pending | Reminded | RowOverdue | Escalated | RowCollected | BadDebt

  /** `rate` records the rate string behind the last write of `penalty`; the other fields are columns.
      `dailyRate` is the rate column, which only an insert writes. */
  datatype Collection = Collection(
    invoice: InvoiceId, face: nat, status: CollectionStatus, level: int, days: nat,
    penalty: nat, rate: string, dailyRate: string, totalCollected: int, sarFlagged: bool, demandNoticeSent: bool)

  datatype Buyer = Buyer(usedLimit: int, score: int)

  /** `full` tells which operation inserted the row: a whole-invoice or a partial payment. */
  datatype Payment = Payment(collection: CollectionId, amount: int, paidAt: int, full: bool)

  datatype AuditRow =
    | CollectionStarted(invoice: InvoiceId)
    | InvoiceOverdue(invoice: InvoiceId)
    | InvoicePaid(invoice: InvoiceId, from: InvoiceStatus, amount: int)
    | CollectionPaid(collection: CollectionId, amount: int)
    | CollectionEscalated(collection: CollectionId, fromLevel: int, toLevel: int)
    | CollectionDeescalated(collection: CollectionId, fromLevel: int, toLevel: int)
    | CollectionResolved(collection: CollectionId, seen: CollectionStatus)
    | InvoiceDefaulted(collection: CollectionId)

  /** Collection ids are positions in `collections`, so an insert always has a fresh id.
      `systemUserKnown` tells whether audit_logs.user_id takes the literal SYSTEM, which the schema
      declares as a uuid referencing users. */
  datatype Db = Db(
    amlThreshold: nat,
    systemUserKnown: bool,
    terms: map<InvoiceId, Terms>,
    status: map<InvoiceId, InvoiceStatus>,
    collections: seq<Collection>,
    buyers: map<BuyerId, Buyer>,
    payments: seq<Payment>,
    audit: seq<AuditRow>)

  function FaceOf(db: Db, inv: InvoiceId): nat {
    if inv in db.terms then db.terms[inv].face else 0
  }

  // ---------------------------------------------------------------------
  // Single statements
  // ---------------------------------------------------------------------

  /** UPDATE invoices SET status = to WHERE id = inv AND status = from. */
  function CasStatus(db: Db, inv: InvoiceId, to: InvoiceStatus, from: InvoiceStatus): Db {
    if inv in db.status && db.status[inv] == from then db.(status := db.status[inv := to]) else db
  }

  function UpdateRow(db: Db, c: CollectionId, f: Collection -> Collection): Db {
    if c < |db.collections| then db.(collections := db.collections[c := f(db.collections[c])]) else db
  }

  function Audited(db: Db, row: AuditRow): Db {
    db.(audit := db.audit + [row])
  }

  function NewRow(
    inv: InvoiceId, face: nat, status: CollectionStatus, days: nat, penalty: nat, rate: string, dailyRate: string)
    : Collection {
    Collection(inv, face, status, 0, days, penalty, rate, dailyRate, 0, false, false)
  }

  function WithEscalation(
    row: Collection, status: CollectionStatus, level: int, days: nat, penalty: nat, rate: string): Collection {
    row.(status := status, level := level, days := days, penalty := penalty, rate := rate,
         demandNoticeSent := row.demandNoticeSent || level >= 2)
  }

  /** setEscalationLevel: a positive level also marks the row escalated. */
  function WithLevel(row: Collection, level: int): Collection {
    row.(level := level, status := if level > 0 then Escalated else row.status)
  }

  function WithSarFlag(row: Collection, flag: bool): Collection {
    row.(sarFlagged := row.sarFlagged || flag)
  }

  /** resolveCollection: the level is reset and the total overwritten. */
  function Closed(row: Collection, total: int): Collection {
    row.(status := RowCollected, level := 0, totalCollected := total)
  }

  function DetermineEscalationLevel(days: int): int {
    if days >= 14 then 3 else if days >= 7 then 2 else if days >= 3 then 1 else 0
  }

  predicate CheckSarFlag(level: int, face: nat, threshold: nat) {
    level >= 3 && face >= threshold
  }

  function Min(a: int, b: int): int {
    if a <= b then a else b
  }

  /** Whole days from the due date to the payment, rounded down. */
  function DaysLate(paidAt: int, dueAt: int): int {
    (paidAt - dueAt) / 86_400_000
  }

  /** On-time payment earns five points, each late day costs one up to twenty; clamped to 0..100. */
  function AdjustedScore(score: int, daysLate: int): int {
    var raw := score + if daysLate <= 0 then 5 else -Min(daysLate, 20);
    if raw < 0 then 0 else Min(raw, 100)
  }

  // ---------------------------------------------------------------------
  // Transactions: None is a rollback
  // ---------------------------------------------------------------------

  /** A transaction whose audit row names SYSTEM aborts where that is no user. */
  function BySystem(db: Db, written: Db): Option<Db> {
    if db.systemUserKnown then Some(written) else None
  }

  function Started(db: Db, inv: InvoiceId, rate: string): Db {
    var row := NewRow(inv, FaceOf(db, inv), Pending, 0, 0, rate, rate);
    Audited(CasStatus(db.(collections := db.collections + [row]), inv, Collecting, Funded), CollectionStarted(inv))
  }

  function StartTxn(db: Db, inv: InvoiceId, rate: string): Option<Db> {
    BySystem(db, Started(db, inv, rate))
  }

  /** `dailyRate` is a second look at the configured rate, taken for the rate column of a new row. */
  function MarkedOverdue(
    db: Db, inv: InvoiceId, existing: Option<CollectionId>, penalty: nat, rate: string, dailyRate: string): Db {
    var written := match existing
      case Some(c) => UpdateRow(db, c, (row: Collection) => WithEscalation(row, RowOverdue, 0, 1, penalty, rate))
      case None => db.(collections :=
        db.collections + [NewRow(inv, FaceOf(db, inv), RowOverdue, 1, penalty, rate, dailyRate)]);
    Audited(CasStatus(written, inv, Overdue, Collecting), InvoiceOverdue(inv))
  }

  /** Both callers, the reminder and the batch, act as SYSTEM. */
  function OverdueTxn(
    db: Db, inv: InvoiceId, existing: Option<CollectionId>, penalty: nat, rate: string, dailyRate: string): Option<Db> {
    BySystem(db, MarkedOverdue(db, inv, existing, penalty, rate, dailyRate))
  }

  function EscalationTxn(
    db: Db, inv: InvoiceId, c: CollectionId, from: int, days: nat, penalty: nat, rate: string): Db {
    var level := DetermineEscalationLevel(days);
    var sar := CheckSarFlag(level, FaceOf(db, inv), db.amlThreshold);
    var written := UpdateRow(db, c, (row: Collection) =>
      WithSarFlag(WithEscalation(row, Escalated, level, days, penalty, rate), sar));
    Audited(written, CollectionEscalated(c, from, level))
  }

  /** The status swap comes first and its miss aborts. A payment row needs a collection, since an empty
      id is no uuid; its CHECK (amount > 0) and the buyer row's (used_limit >= 0) abort too. */
  function PaymentTxn(
    db: Db, inv: InvoiceId, expected: InvoiceStatus, coll: Option<CollectionId>, input: PaymentInput): Option<Db> {
    if inv !in db.status || db.status[inv] != expected || inv !in db.terms || coll.None? || input.amount <= 0 then None
    else
      var t := db.terms[inv];
      if t.buyer !in db.buyers || db.buyers[t.buyer].usedLimit < t.face then None
      else
        var b := db.buyers[t.buyer];
        var buyer := Buyer(b.usedLimit - t.face, AdjustedScore(b.score, DaysLate(input.paidAt, t.dueAt)));
        var swapped := CasStatus(db, inv, Collected, expected);
        var paid := swapped.(payments := db.payments + [Payment(coll.value, input.amount, input.paidAt, true)],
                             buyers := db.buyers[t.buyer := buyer]);
        var resolved := UpdateRow(paid, coll.value, (row: Collection) => Closed(row, input.amount));
        Some(Audited(resolved, InvoicePaid(inv, expected, input.amount)))
  }

  function CollectionPaymentTxn(db: Db, c: CollectionId, amount: int, paidAt: int): Option<Db> {
    if amount <= 0 then None
    else
      var paid := db.(payments := db.payments + [Payment(c, amount, paidAt, false)]);
      var counted := UpdateRow(paid, c, (row: Collection) => row.(totalCollected := row.totalCollected + amount));
      Some(Audited(counted, CollectionPaid(c, amount)))
  }

  function ManualEscalationTxn(db: Db, c: CollectionId, inv: InvoiceId, from: int): Db {
    var level := Min(from + 1, 3);
    var sar := CheckSarFlag(level, FaceOf(db, inv), db.amlThreshold);
    Audited(UpdateRow(db, c, (row: Collection) => WithSarFlag(WithLevel(row, level), sar)),
      CollectionEscalated(c, from, level))
  }

  function DeescalationTxn(db: Db, c: CollectionId, from: int): Db {
    var level := from - 1;
    var written := UpdateRow(db, c, (row: Collection) =>
      if level == 0 then WithLevel(row, level).(status := RowOverdue) else WithLevel(row, level));
    Audited(written, CollectionDeescalated(c, from, level))
  }

  /** The outcome of the swap is ignored. */
  function Resolved(db: Db, c: CollectionId, inv: InvoiceId, seen: CollectionStatus): Db {
    var written := UpdateRow(db, c, (row: Collection) => row.(status := RowCollected));
    Audited(CasStatus(written, inv, Collected, Overdue), CollectionResolved(c, seen))
  }

  /** The expected invoice status is the collection status read earlier, with escalated standing for
      overdue. Pending, reminded and bad debt are no words of the invoice_status enum: comparing the
      column with one raises an error, and the transaction aborts. */
  function ResolveTxn(db: Db, c: CollectionId, inv: InvoiceId, seen: CollectionStatus): Option<Db> {
    if seen == Escalated || seen == RowOverdue then Some(Resolved(db, c, inv, seen)) else None
  }

  function WrittenOff(db: Db, c: CollectionId, inv: InvoiceId): Db {
    var written := UpdateRow(db, c, (row: Collection) => row.(status := BadDebt));
    Audited(CasStatus(written, inv, Defaulted, Overdue), InvoiceDefaulted(c))
  }

  function DefaultTxn(db: Db, c: CollectionId, inv: InvoiceId): Option<Db> {
    BySystem(db, WrittenOff(db, c, inv))
  }

  // ---------------------------------------------------------------------
  // Workers
  // ---------------------------------------------------------------------

  datatype PaymentInput = PaymentInput(amount: int, paidAt: int)

  /** Where a worker stands and what it remembers from its reads. */
  datatype Phase =
    | Idle
    | StartFetched(inv: InvoiceId)
    | StartReady(inv: InvoiceId, rate: string)
    | OverdueFetched(inv: InvoiceId)
    | OverdueReady(inv: InvoiceId, existing: Option<CollectionId>, penalty: nat, rate: string, dailyRate: string)
    | EscalationReady(inv: InvoiceId, coll: CollectionId, from: int, days: nat, penalty: nat, rate: string)
    | PaymentFetched(inv: InvoiceId, expected: InvoiceStatus)
    | PaymentReady(inv: InvoiceId, expected: InvoiceStatus, existing: Option<CollectionId>, input: PaymentInput)
    | PaymentDispatch(inv: InvoiceId)
    | CollectionPaymentReady(coll: CollectionId, amount: int, paidAt: int)
    | ManualEscalationReady(coll: CollectionId, inv: InvoiceId, from: int)
    | DeescalationReady(coll: CollectionId, from: int)
    | ResolveReady(coll: CollectionId, inv: InvoiceId, seen: CollectionStatus)
    | DefaultReady(coll: CollectionId, inv: InvoiceId)

  datatype State = State(db: Db, workers: map<WorkerId, Phase>, settlementJobs: multiset<InvoiceId>)

  datatype Action =
    | Read(worker: WorkerId, next: Phase)
    | Commit(worker: WorkerId)
    | Rollback(worker: WorkerId)
    | Dispatch(worker: WorkerId)
    | Elsewhere(inv: InvoiceId, to: InvoiceStatus)

  predicate IsRowOf(db: Db, c: CollectionId, inv: InvoiceId) {
    c < |db.collections| && db.collections[c].invoice == inv
  }

  /** What a lookup of a collection by invoice may return. */
  predicate FoundByInvoice(db: Db, inv: InvoiceId, found: Option<CollectionId>) {
    match found
    case Some(c) => IsRowOf(db, c, inv)
    case None => forall c :: 0 <= c < |db.collections| ==> db.collections[c].invoice != inv
  }

  predicate HasStatus(db: Db, inv: InvoiceId, s: InvoiceStatus) {
    inv in db.terms && inv in db.status && db.status[inv] == s
  }

  /** A worker at `cur` may now learn what `next` remembers, and passes the checks made on it. */
  predicate CanRead(db: Db, cur: Phase, next: Phase) {
    match next
    case StartFetched(inv) => cur.Idle? && FoundByInvoice(db, inv, None)
    case StartReady(inv, rate) =>
      cur == StartFetched(inv) && HasStatus(db, inv, Funded)
    case OverdueFetched(inv) => cur.Idle? && HasStatus(db, inv, Collecting)
    case OverdueReady(inv, existing, penalty, rate, dailyRate) =>
      cur == OverdueFetched(inv) && FoundByInvoice(db, inv, existing)
      && Penalty.CalculatePenalty(FaceOf(db, inv), 1, rate) == Some(penalty)
    case EscalationReady(inv, c, from, days, penalty, rate) =>
      cur.Idle? && inv in db.terms && IsRowOf(db, c, inv) && from == db.collections[c].level
      && DetermineEscalationLevel(days) > from
      && Penalty.CalculatePenalty(FaceOf(db, inv), days, rate) == Some(penalty)
    case PaymentFetched(inv, expected) => cur.Idle? && HasStatus(db, inv, expected) && expected != Collected
    case PaymentReady(inv, expected, existing, input) =>
      cur == PaymentFetched(inv, expected) && FoundByInvoice(db, inv, existing)
    case CollectionPaymentReady(c, amount, paidAt) =>
      cur.Idle? && c < |db.collections| && db.collections[c].status != RowCollected
    case ManualEscalationReady(c, inv, from) =>
      cur.Idle? && IsRowOf(db, c, inv) && db.collections[c].status != RowCollected && from == db.collections[c].level
    case DeescalationReady(c, from) =>
      cur.Idle? && c < |db.collections| && from == db.collections[c].level && from > 0
    case ResolveReady(c, inv, seen) =>
      cur.Idle? && IsRowOf(db, c, inv) && seen == db.collections[c].status && seen != RowCollected
    case DefaultReady(c, inv) =>
      cur.Idle? && IsRowOf(db, c, inv)
      && var row := db.collections[c];
         row.level == 3 && row.days >= 90 && (row.status == RowOverdue || row.status == Escalated)
    case _ => false
  }

  /** The transaction a worker runs from where it stands. */
  function CommitTxn(db: Db, p: Phase): Option<Db> {
    match p
    case StartReady(inv, rate) => StartTxn(db, inv, rate)
    case OverdueReady(inv, existing, penalty, rate, dailyRate) =>
      OverdueTxn(db, inv, existing, penalty, rate, dailyRate)
    case EscalationReady(inv, c, from, days, penalty, rate) =>
      Some(EscalationTxn(db, inv, c, from, days, penalty, rate))
    case PaymentReady(inv, expected, existing, input) => PaymentTxn(db, inv, expected, existing, input)
    case CollectionPaymentReady(c, amount, paidAt) => CollectionPaymentTxn(db, c, amount, paidAt)
    case ManualEscalationReady(c, inv, from) => Some(ManualEscalationTxn(db, c, inv, from))
    case DeescalationReady(c, from) => Some(DeescalationTxn(db, c, from))
    case ResolveReady(c, inv, seen) => ResolveTxn(db, c, inv, seen)
    case DefaultReady(c, inv) => DefaultTxn(db, c, inv)
    case _ => None
  }

  /** Only a whole-invoice payment has work left once its transaction is committed. */
  function AfterCommit(p: Phase): Phase {
    match p
    case PaymentReady(inv, _, _, _) => PaymentDispatch(inv)
    case _ => Idle
  }

  function PhaseOf(s: State, w: WorkerId): Phase {
    if w in s.workers then s.workers[w] else Idle
  }

  /** One step. A step that is not possible leaves the state alone, so every list of actions is a run.
      `Rollback` is any failure, before or after the commit, and an unconfigured queue; `Elsewhere` is the
      rest of the platform, which moves an invoice only until it is funded. */
  function Next(s: State, a: Action): State {
    match a
    case Read(w, next) =>
      if CanRead(s.db, PhaseOf(s, w), next) then s.(workers := s.workers[w := next]) else s
    case Commit(w) =>
      (match CommitTxn(s.db, PhaseOf(s, w))
       case None => s.(workers := s.workers[w := Idle])
       case Some(db) => s.(db := db, workers := s.workers[w := AfterCommit(PhaseOf(s, w))]))
    case Rollback(w) => s.(workers := s.workers[w := Idle])
    case Dispatch(w) =>
      (match PhaseOf(s, w)
       case PaymentDispatch(inv) =>
         s.(settlementJobs := s.settlementJobs + multiset{inv}, workers := s.workers[w := Idle])
       case _ => s)
    case Elsewhere(inv, to) =>
      if inv in s.db.status && Rank(s.db.status[inv]) == 0 && Rank(to) <= 1
      then s.(db := s.db.(status := s.db.status[inv := to])) else s
  }

  function Run(s: State, actions: seq<Action>): State
    decreases |actions|
  {
    if actions == [] then s else Run(Next(s, actions[0]), actions[1..])
  }

  // ---------------------------------------------------------------------
  // Where a run may start
  // ---------------------------------------------------------------------

  /** A coherent row: level within 0..3 and in step with the status, flagged for SAR at level 3 above the
      threshold, and carrying the penalty of its own days and last rate. */
  ghost predicate RowOk(row: Collection, threshold: nat) {
    && 0 <= row.level <= 3
    && (row.status == Escalated ==> row.level >= 1)
    && (row.status == Pending || row.status == RowOverdue ==> row.level == 0)
    && (row.level == 3 && row.face >= threshold ==> row.sarFlagged)
    && (if row.days == 0 then row.penalty == 0
        else Penalty.CalculatePenalty(row.face, row.days, row.rate) == Some(row.penalty))
  }

  /** A row belongs to an invoice that collections has taken on, and copies its face value. */
  ghost predicate RowAnchored(db: Db, row: Collection) {
    && row.invoice in db.terms && row.invoice in db.status
    && row.face == db.terms[row.invoice].face && Rank(db.status[row.invoice]) >= 2
  }

  ghost predicate RowsOk(db: Db) {
    forall c :: 0 <= c < |db.collections| ==>
      RowOk(db.collections[c], db.amlThreshold) && RowAnchored(db, db.collections[c])
  }

  /** Invoices and buyers are arbitrary, collection rows are any coherent ones on which nothing was
      recorded yet; the logs are read from here. */
  ghost predicate Initial(s: State) {
    && s.db.status.Keys == s.db.terms.Keys
    && (forall i :: i in s.db.terms ==> s.db.terms[i].buyer in s.db.buyers)
    && RowsOk(s.db) && (forall c :: 0 <= c < |s.db.collections| ==> s.db.collections[c].totalCollected == 0)
    && s.db.payments == [] && s.db.audit == []
    && s.workers == map[] && s.settlementJobs == multiset{}
    && (forall b :: b in s.db.buyers ==> s.db.buyers[b].usedLimit >= 0 && 0 <= s.db.buyers[b].score <= 100)
  }

  /** The row that the migration to the collecting status gives a funded invoice: overdue since its due
      date if that is past, pending otherwise, in either case without a penalty. */
  function BackfilledRow(inv: InvoiceId, face: nat, daysPastDue: int, dailyRate: string): Collection {
    if daysPastDue > 0 then NewRow(inv, face, RowOverdue, daysPastDue, 0, "0", dailyRate)
    else NewRow(inv, face, Pending, 0, 0, "0", dailyRate)
  }

  /** Such a row is one a run may start with: its penalty is the one at rate zero. */
  lemma BackfilledRowIsCoherent(inv: InvoiceId, face: nat, daysPastDue: int, dailyRate: string, threshold: nat)
    ensures var row := BackfilledRow(inv, face, daysPastDue, dailyRate);
            RowOk(row, threshold) && row.totalCollected == 0 && row.invoice == inv && row.face == face
  {
    Penalty.RateZero(face, if daysPastDue > 0 then daysPastDue else 0);
  }
}
