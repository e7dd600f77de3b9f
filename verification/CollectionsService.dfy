/** The collections service and repository as they run when nobody interferes: statements that change
    rows in place, grouped into operations, each proved to do what the state machine's step does. */
module CollectionsService {
  import opened Common
  import opened InvoiceStatuses
  import opened CollectionsModel
  import Penalty

  datatype Outcome = NotFound | Refused | NothingToDo | RolledBack | Committed

  /** ORDER BY created_at DESC LIMIT 1; rows are kept in the order of their creation. */
  function LatestRow(rows: seq<Collection>, inv: InvoiceId): (found: Option<CollectionId>)
    ensures found.None? ==> forall c :: 0 <= c < |rows| ==> rows[c].invoice != inv
    ensures found.Some? ==>
              && found.value < |rows| && rows[found.value].invoice == inv
              && forall d :: found.value < d < |rows| ==> rows[d].invoice != inv
  {
    if rows == [] then None
    else if rows[|rows| - 1].invoice == inv then Some(|rows| - 1)
    else LatestRow(rows[..|rows| - 1], inv)
  }

  class CollectionsStore {
    const amlThreshold: nat
    const systemUserKnown: bool
    const settlementQueue: bool
    const terms: map<InvoiceId, Terms>
    var status: map<InvoiceId, InvoiceStatus>
    var collections: seq<Collection>
    var buyers: map<BuyerId, Buyer>
    var payments: seq<Payment>
    var audit: seq<AuditRow>
    var settlementJobs: multiset<InvoiceId>

    constructor (db: Db, settlementQueue: bool)
      ensures View() == db && settlementJobs == multiset{} && this.settlementQueue == settlementQueue
    {
      this.settlementQueue := settlementQueue;
      amlThreshold, systemUserKnown := db.amlThreshold, db.systemUserKnown;
      terms, status, collections := db.terms, db.status, db.collections;
      buyers, payments, audit, settlementJobs := db.buyers, db.payments, db.audit, multiset{};
    }

    function View(): Db
      reads this
    {
      Db(amlThreshold, systemUserKnown, terms, status, collections, buyers, payments, audit)
    }

    // -------------------------------------------------------------------
    // Repository statements
    // -------------------------------------------------------------------

    method UpdateInvoiceStatus(inv: InvoiceId, to: InvoiceStatus, from: InvoiceStatus) returns (updated: bool)
      modifies this`status
      ensures updated <==> inv in old(status) && old(status)[inv] == from
      ensures status == if updated then old(status)[inv := to] else old(status)
    {
      updated := inv in status && status[inv] == from;
      if updated {
        status := status[inv := to];
      }
    }

    method UpdateCollectionStatus(c: CollectionId, s: CollectionStatus)
      modifies this`collections
      ensures collections == if c < |old(collections)| then old(collections)[c := old(collections)[c].(status := s)]
          else old(collections)
    {
      if c < |collections| {
        collections := collections[c := collections[c].(status := s)];
      }
    }

    method UpdateEscalationLevel(c: CollectionId, level: int, days: nat, penalty: nat, rate: string)
      modifies this`collections
      ensures collections == if c < |old(collections)|
                             then old(collections)[c := WithEscalation(
                               old(collections)[c], old(collections)[c].status, level, days, penalty, rate)]
                             else old(collections)
    {
      if c < |collections| {
        var row := collections[c];
        collections := collections[c := row.(level := level, days := days, penalty := penalty, rate := rate,
                                             demandNoticeSent := if level >= 2 then true else row.demandNoticeSent)];
      }
    }

    method SetEscalationLevel(c: CollectionId, level: int)
      modifies this`collections
      ensures collections == if c < |old(collections)|
          then old(collections)[c := WithLevel(old(collections)[c], level)] else old(collections)
    {
      if c < |collections| {
        var row := collections[c];
        collections := collections[c := row.(level := level, status := if level > 0 then Escalated else row.status)];
      }
    }

    method FlagForSarReview(c: CollectionId)
      modifies this`collections
      ensures collections == if c < |old(collections)|
          then old(collections)[c := WithSarFlag(old(collections)[c], true)] else old(collections)
    {
      if c < |collections| {
        collections := collections[c := collections[c].(sarFlagged := true)];
      }
    }

    method ReduceBuyerUsedLimit(b: BuyerId, amount: int)
      requires b in buyers
      modifies this`buyers
      ensures buyers == old(buyers)[b := Buyer(old(buyers)[b].usedLimit - amount, old(buyers)[b].score)]
    {
      buyers := buyers[b := buyers[b].(usedLimit := buyers[b].usedLimit - amount)];
    }

    method AdjustBuyerPaymentScore(b: BuyerId, daysLate: int)
      requires b in buyers
      modifies this`buyers
      ensures buyers == old(buyers)[b := Buyer(old(buyers)[b].usedLimit, AdjustedScore(old(buyers)[b].score, daysLate))]
    {
      var adjustment := if daysLate <= 0 then 5 else -Min(daysLate, 20);
      var raised := Min(100, buyers[b].score + adjustment);
      buyers := buyers[b := buyers[b].(score := if raised > 0 then raised else 0)];
    }

    method ResolveCollection(c: CollectionId, total: int)
      modifies this`collections
      ensures collections == if c < |old(collections)|
                             then old(collections)[c := Closed(old(collections)[c], total)] else old(collections)
    {
      if c < |collections| {
        collections := collections[c := collections[c].(status := RowCollected, level := 0, totalCollected := total)];
      }
    }

    method CreateAuditEntry(row: AuditRow)
      modifies this`audit
      ensures audit == old(audit) + [row]
    {
      audit := audit + [row];
    }

    /** An audit row in the name of SYSTEM, which only a database that knows that user takes. */
    method CreateSystemAuditEntry(row: AuditRow) returns (audited: bool)
      modifies this`audit
      ensures audited == systemUserKnown
      ensures audit == if audited then old(audit) + [row] else old(audit)
    {
      if !systemUserKnown { return false; }
      CreateAuditEntry(row);
      audited := true;
    }

    /** The lookup of a collection by invoice: the youngest row, when there are several. */
    method GetCollectionByInvoiceId(inv: InvoiceId) returns (found: Option<CollectionId>)
      ensures FoundByInvoice(View(), inv, found)
      ensures found.Some? ==> forall d :: found.value < d < |collections| ==> collections[d].invoice != inv
    {
      found := LatestRow(collections, inv);
    }

    // -------------------------------------------------------------------
    // Operations
    // -------------------------------------------------------------------

    method StartCollectionMonitoring(inv: InvoiceId, rate: string) returns (r: Outcome)
      requires inv in status ==> inv in terms
      modifies this
      ensures settlementJobs == old(settlementJobs)
      ensures r == NotFound <==> FoundByInvoice(old(View()), inv, None) && inv !in old(status)
      ensures r == Committed || r == RolledBack <==>
          FoundByInvoice(old(View()), inv, None) && HasStatus(old(View()), inv, Funded)
      ensures r == Committed ==> StartTxn(old(View()), inv, rate) == Some(View())
      ensures r == RolledBack ==> StartTxn(old(View()), inv, rate) == None
      ensures r != Committed ==> View() == old(View())
    {
      var existing := GetCollectionByInvoiceId(inv);
      if existing.Some? { return NothingToDo; }
      if inv !in status { return NotFound; }
      if status[inv] != Funded { return NothingToDo; }
      var savedStatus, savedCollections := status, collections;
      collections := collections + [NewRow(inv, terms[inv].face, Pending, 0, 0, rate, rate)];
      var updated := UpdateInvoiceStatus(inv, Collecting, Funded);
      var audited := CreateSystemAuditEntry(CollectionStarted(inv));
      if !audited {
        status, collections := savedStatus, savedCollections;
        return RolledBack;
      }
      r := Committed;
    }

    /** The row an overdue mark writes: the one found, or a new one. */
    method WriteOverdueRow(inv: InvoiceId, found: Option<CollectionId>, penalty: nat, rate: string, dailyRate: string)
      requires inv in terms && (found.Some? ==> found.value < |collections|)
      modifies this`collections
      ensures collections == match found
                case Some(c) => old(collections)[c :=
                  WithEscalation(old(collections)[c], RowOverdue, 0, 1, penalty, rate)]
                case None => old(collections) + [NewRow(inv, terms[inv].face, RowOverdue, 1, penalty, rate, dailyRate)]
    {
      match found
      case Some(c) =>
        UpdateCollectionStatus(c, RowOverdue);
        UpdateEscalationLevel(c, 0, 1, penalty, rate);
      case None =>
        collections := collections + [NewRow(inv, terms[inv].face, RowOverdue, 1, penalty, rate, dailyRate)];
    }

    method ExecuteOverdueTxn(
      inv: InvoiceId, found: Option<CollectionId>, penalty: nat, rate: string, dailyRate: string)
      returns (committed: bool)
      requires inv in terms && (found.Some? ==> found.value < |collections|)
      modifies this`status, this`collections, this`audit
      ensures OverdueTxn(old(View()), inv, found, penalty, rate, dailyRate) == if committed then Some(View()) else None
      ensures !committed ==> View() == old(View())
    {
      var savedStatus, savedCollections := status, collections;
      WriteOverdueRow(inv, found, penalty, rate, dailyRate);
      var updated := UpdateInvoiceStatus(inv, Overdue, Collecting);
      committed := CreateSystemAuditEntry(InvoiceOverdue(inv));
      if !committed {
        status, collections := savedStatus, savedCollections;
      }
    }

    /** `dailyRate` is the second read of the rate, for the column of a new row. */
    method ProcessOverdueInvoice(inv: InvoiceId, rate: string, dailyRate: string)
      returns (r: Outcome, ghost existing: Option<CollectionId>, ghost penalty: nat)
      requires inv in status ==> inv in terms
      modifies this
      ensures settlementJobs == old(settlementJobs)
      ensures r == Committed || r == RolledBack ==>
                && FoundByInvoice(old(View()), inv, existing) && HasStatus(old(View()), inv, Collecting)
                && Penalty.CalculatePenalty(FaceOf(old(View()), inv), 1, rate) == Some(penalty)
                && OverdueTxn(old(View()), inv, existing, penalty, rate, dailyRate)
                   == if r == Committed then Some(View()) else None
      ensures r != Committed ==> View() == old(View())
      ensures r == NothingToDo <==> inv in old(status) && old(status)[inv] != Collecting
      ensures r == Refused <==> inv in old(status) && old(status)[inv] == Collecting && Penalty.ScaledRate(rate).None?
      ensures r == NotFound <==> inv !in old(status)
    {
      r, existing, penalty := NotFound, None, 0;
      if inv !in status { return; }
      if status[inv] != Collecting { r := NothingToDo; return; }
      var p := Penalty.CalculatePenalty(terms[inv].face, 1, rate);
      if p.None? { r := Refused; return; }
      var found := GetCollectionByInvoiceId(inv);
      var committed := ExecuteOverdueTxn(inv, found, p.value, rate, dailyRate);
      r, existing, penalty := if committed then Committed else RolledBack, found, p.value;
    }

    method ExecuteEscalationTxn(inv: InvoiceId, c: CollectionId, from: int, days: nat, penalty: nat, rate: string)
      requires inv in terms && c < |collections|
      modifies this`collections, this`audit
      ensures View() == EscalationTxn(old(View()), inv, c, from, days, penalty, rate)
    {
      var level := DetermineEscalationLevel(days);
      UpdateCollectionStatus(c, Escalated);
      UpdateEscalationLevel(c, level, days, penalty, rate);
      var sar := CheckSarFlag(level, terms[inv].face, amlThreshold);
      if sar {
        FlagForSarReview(c);
      }
      assert collections == old(collections)[c :=
        WithSarFlag(WithEscalation(old(collections)[c], Escalated, level, days, penalty, rate), sar)];
      CreateAuditEntry(CollectionEscalated(c, from, level));
    }

    /** The day count is a JavaScript number: one that is no integer makes the penalty throw. */
    method ProcessEscalation(inv: InvoiceId, days: real, rate: string)
      returns (r: Outcome, ghost c: CollectionId, ghost penalty: nat)
      requires forall i :: 0 <= i < |collections| ==> collections[i].level >= 0
      modifies this
      ensures settlementJobs == old(settlementJobs)
      ensures r == Committed ==>
                && inv in terms && IsRowOf(old(View()), c, inv) && days == days.Floor as real && days.Floor >= 0
                && DetermineEscalationLevel(days.Floor) > old(collections)[c].level
                && Penalty.CalculatePenalty(FaceOf(old(View()), inv), days.Floor, rate) == Some(penalty)
                && View() == EscalationTxn(old(View()), inv, c, old(collections)[c].level, days.Floor, penalty, rate)
      ensures r != Committed ==> View() == old(View())
      ensures r == NotFound <==> inv !in terms || FoundByInvoice(old(View()), inv, None)
      ensures days < 3.0 ==> r == NotFound || r == NothingToDo
      ensures r == Refused ==> days != days.Floor as real || Penalty.ScaledRate(rate).None?
      ensures r == NothingToDo ==>
          exists d: CollectionId :: IsRowOf(old(View()), d, inv)
            && (days >= 3.0 ==> old(collections)[d].level >= 1) && (days >= 7.0 ==> old(collections)[d].level >= 2)
            && (days >= 14.0 ==> old(collections)[d].level >= 3)
      ensures r != RolledBack
    {
      r, c, penalty := NotFound, 0, 0;
      if inv !in terms { return; }
      var found := GetCollectionByInvoiceId(inv);
      if found.None? { return; }
      var id := found.value;
      var from := collections[id].level;
      if DetermineEscalationLevel(days.Floor) <= from { r := NothingToDo; return; }
      if days != days.Floor as real { r := Refused; return; }
      var p := Penalty.CalculatePenalty(terms[inv].face, days.Floor, rate);
      if p.None? { r := Refused; return; }
      ExecuteEscalationTxn(inv, id, from, days.Floor, p.value, rate);
      r, c, penalty := Committed, id, p.value;
    }

    /** The transaction body: a missed status swap, a missing collection or a broken CHECK constraint
        restores every row. */
    method ExecutePaymentReceivedTxn(
      inv: InvoiceId, expected: InvoiceStatus, coll: Option<CollectionId>, input: PaymentInput)
      returns (committed: bool)
      requires inv in terms && terms[inv].buyer in buyers
      modifies this
      ensures settlementJobs == old(settlementJobs)
      ensures PaymentTxn(old(View()), inv, expected, coll, input) == if committed then Some(View()) else None
      ensures !committed ==> View() == old(View())
    {
      var savedStatus, savedPayments := status, payments;
      var updated := UpdateInvoiceStatus(inv, Collected, expected);
      if !updated { return false; }
      if coll.None? || input.amount <= 0 {
        status := savedStatus;
        return false;
      }
      payments := payments + [Payment(coll.value, input.amount, input.paidAt, true)];
      if buyers[terms[inv].buyer].usedLimit - terms[inv].face < 0 {
        status, payments := savedStatus, savedPayments;
        return false;
      }
      FinishPayment(inv, expected, coll.value, input);
      committed := true;
    }

    /** What follows the swap and the payment row. */
    method FinishPayment(inv: InvoiceId, expected: InvoiceStatus, c: CollectionId, input: PaymentInput)
      requires inv in terms && terms[inv].buyer in buyers
      modifies this`buyers, this`collections, this`audit
      ensures var t, b := terms[inv], old(buyers)[terms[inv].buyer];
              buyers == old(buyers)[t.buyer :=
                Buyer(b.usedLimit - t.face, AdjustedScore(b.score, DaysLate(input.paidAt, t.dueAt)))]
      ensures collections == if c < |old(collections)|
                             then old(collections)[c := Closed(old(collections)[c], input.amount)] else old(collections)
      ensures audit == old(audit) + [InvoicePaid(inv, expected, input.amount)]
    {
      var daysLate := DaysLate(input.paidAt, terms[inv].dueAt);
      SettleBuyer(terms[inv].buyer, terms[inv].face, daysLate);
      ResolveCollection(c, input.amount);
      CreateAuditEntry(InvoicePaid(inv, expected, input.amount));
    }

    /** The two updates of the buyer row. */
    method SettleBuyer(b: BuyerId, face: nat, daysLate: int)
      requires b in buyers
      modifies this`buyers
      ensures buyers == old(buyers)[b :=
          Buyer(old(buyers)[b].usedLimit - face, AdjustedScore(old(buyers)[b].score, daysLate))]
    {
      ReduceBuyerUsedLimit(b, face);
      AdjustBuyerPaymentScore(b, daysLate);
    }

    /** Without a configured queue the job is only warned about. */
    method QueueSettlementInitiation(inv: InvoiceId)
      modifies this`settlementJobs
      ensures settlementJobs == old(settlementJobs) + (if settlementQueue then multiset{inv} else multiset{})
    {
      if settlementQueue {
        settlementJobs := settlementJobs + multiset{inv};
      }
    }

    method RecordPaymentReceived(inv: InvoiceId, input: PaymentInput)
      returns (r: Outcome, ghost coll: Option<CollectionId>)
      requires inv in status ==> inv in terms && terms[inv].buyer in buyers
      modifies this
      ensures r == NotFound <==> inv !in old(status)
      ensures r == Refused <==> inv in old(status) && old(status)[inv] == Collected
      ensures r == Committed ==>
                && settlementJobs == old(settlementJobs) + (if settlementQueue then multiset{inv} else multiset{})
                && inv in old(status) && old(status)[inv] != Collected
                && FoundByInvoice(old(View()), inv, coll)
                && PaymentTxn(old(View()), inv, old(status)[inv], coll, input) == Some(View())
      ensures r != Committed ==> View() == old(View()) && settlementJobs == old(settlementJobs)
      ensures FoundByInvoice(old(View()), inv, None) ==> r != Committed
      ensures r == RolledBack ==>
          || FoundByInvoice(old(View()), inv, None) || input.amount <= 0
          || old(buyers)[terms[inv].buyer].usedLimit < terms[inv].face
      ensures r != NothingToDo
    {
      r, coll := NotFound, None;
      if inv !in status { return; }
      if status[inv] == Collected { r := Refused; return; }
      var found := GetCollectionByInvoiceId(inv);
      var committed := ExecutePaymentReceivedTxn(inv, status[inv], found, input);
      if !committed { r := RolledBack; return; }
      QueueSettlementInitiation(inv);
      r, coll := Committed, found;
    }

    method RecordCollectionPayment(c: CollectionId, amount: int, paidAt: int) returns (r: Outcome)
      modifies this
      ensures settlementJobs == old(settlementJobs)
      ensures r == NotFound <==> c >= |old(collections)|
      ensures r == Refused <==> c < |old(collections)| && old(collections)[c].status == RowCollected
      ensures r == Committed ==> CollectionPaymentTxn(old(View()), c, amount, paidAt) == Some(View())
      ensures r != Committed ==> View() == old(View())
      ensures r == RolledBack ==> CollectionPaymentTxn(old(View()), c, amount, paidAt) == None && amount <= 0
      ensures r != NothingToDo
    {
      if c >= |collections| { return NotFound; }
      if collections[c].status == RowCollected { return Refused; }
      if amount <= 0 { return RolledBack; }
      payments := payments + [Payment(c, amount, paidAt, false)];
      collections := collections[c := collections[c].(totalCollected := collections[c].totalCollected + amount)];
      CreateAuditEntry(CollectionPaid(c, amount));
      r := Committed;
    }

    method ExecuteManualEscalationTxn(c: CollectionId, inv: InvoiceId, from: int)
      requires c < |collections| && inv in terms
      modifies this`collections, this`audit
      ensures View() == ManualEscalationTxn(old(View()), c, inv, from)
    {
      var level := Min(from + 1, 3);
      SetEscalationLevel(c, level);
      if level >= 3 && terms[inv].face >= amlThreshold {
        FlagForSarReview(c);
      }
      assert collections == old(collections)[c :=
        WithSarFlag(WithLevel(old(collections)[c], level), CheckSarFlag(level, terms[inv].face, amlThreshold))];
      CreateAuditEntry(CollectionEscalated(c, from, level));
    }

    method EscalateCollection(c: CollectionId) returns (r: Outcome)
      requires c < |collections| ==> collections[c].invoice in terms
      modifies this
      ensures settlementJobs == old(settlementJobs)
      ensures r == NotFound <==> c >= |old(collections)|
      ensures r == Refused <==> c < |old(collections)| && old(collections)[c].status == RowCollected
      ensures r == NotFound || r == Refused || r == Committed
      ensures r == Committed ==>
          View() == ManualEscalationTxn(old(View()), c, old(collections)[c].invoice, old(collections)[c].level)
      ensures r != Committed ==> View() == old(View())
    {
      if c >= |collections| { return NotFound; }
      if collections[c].status == RowCollected { return Refused; }
      ExecuteManualEscalationTxn(c, collections[c].invoice, collections[c].level);
      r := Committed;
    }

    method DeescalateCollection(c: CollectionId) returns (r: Outcome)
      modifies this
      ensures settlementJobs == old(settlementJobs)
      ensures r == NotFound <==> c >= |old(collections)|
      ensures r == Refused <==> c < |old(collections)| && old(collections)[c].level <= 0
      ensures r == NotFound || r == Refused || r == Committed
      ensures r == Committed ==> View() == DeescalationTxn(old(View()), c, old(collections)[c].level)
      ensures r != Committed ==> View() == old(View())
    {
      if c >= |collections| { return NotFound; }
      var from := collections[c].level;
      if from <= 0 { return Refused; }
      SetEscalationLevel(c, from - 1);
      if from - 1 == 0 {
        UpdateCollectionStatus(c, RowOverdue);
      }
      CreateAuditEntry(CollectionDeescalated(c, from, from - 1));
      r := Committed;
    }

    /** A row seen pending, reminded or bad debt rolls back: the word is no invoice status. */
    method ResolveCollectionById(c: CollectionId) returns (r: Outcome)
      modifies this
      ensures settlementJobs == old(settlementJobs)
      ensures r == NotFound <==> c >= |old(collections)|
      ensures r == Refused <==> c < |old(collections)| && old(collections)[c].status == RowCollected
      ensures r == Committed || r == RolledBack ==>
                ResolveTxn(old(View()), c, old(collections)[c].invoice, old(collections)[c].status)
                == if r == Committed then Some(View()) else None
      ensures r != NothingToDo
      ensures r != Committed ==> View() == old(View())
    {
      if c >= |collections| { return NotFound; }
      var seen, inv := collections[c].status, collections[c].invoice;
      if seen == RowCollected { return Refused; }
      var savedCollections := collections;
      UpdateCollectionStatus(c, RowCollected);
      if seen != Escalated && seen != RowOverdue {
        collections := savedCollections;
        return RolledBack;
      }
      var updated := UpdateInvoiceStatus(inv, Collected, Overdue);
      CreateAuditEntry(CollectionResolved(c, seen));
      r := Committed;
    }

    method DefaultSingleCollection(c: CollectionId, inv: InvoiceId) returns (r: Outcome)
      modifies this
      ensures settlementJobs == old(settlementJobs)
      ensures r == Committed || r == RolledBack
      ensures DefaultTxn(old(View()), c, inv) == if r == Committed then Some(View()) else None
      ensures r != Committed ==> View() == old(View())
    {
      var savedStatus, savedCollections := status, collections;
      UpdateCollectionStatus(c, BadDebt);
      var updated := UpdateInvoiceStatus(inv, Defaulted, Overdue);
      var audited := CreateSystemAuditEntry(InvoiceDefaulted(c));
      if !audited {
        status, collections := savedStatus, savedCollections;
        return RolledBack;
      }
      r := Committed;
    }
  }
}
