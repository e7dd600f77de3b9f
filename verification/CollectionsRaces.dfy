/** Where a worker's stale read shows: duplicate rows and audit rows for changes that did not happen,
    with the exact condition under which a commit avoids each. */
module CollectionsRaces {
  import opened Common
  import opened InvoiceStatuses
  import opened CollectionsModel
  import opened CollectionsProofs
  import Penalty

  // ---------------------------------------------------------------------
  // One row per invoice
  // ---------------------------------------------------------------------

  ghost predicate OneRowPerInvoice(db: Db) {
    forall c, d :: 0 <= c < d < |db.collections| ==> db.collections[c].invoice != db.collections[d].invoice
  }

  /** The invoice for which a phase inserts a collection row. */
  function Inserts(p: Phase): Option<InvoiceId> {
    match p
    case StartReady(inv, _) => Some(inv)
    case OverdueReady(inv, None, _, _, _) => Some(inv)
    case _ => None
  }

  lemma AppendedRow(db: Db, db': Db, row: Collection)
    requires OneRowPerInvoice(db) && db'.collections == db.collections + [row]
    ensures OneRowPerInvoice(db') <==> FoundByInvoice(db, row.invoice, None)
  {
    var n := |db.collections|;
    assert db'.collections[n] == row;
    assert forall c :: 0 <= c < n ==> db'.collections[c] == db.collections[c];
  }

  /** Either insert, by a start or by an overdue mark without a row, keeps one row per invoice exactly
      when the invoice has no row at commit. That is so whenever the invoice is still funded then, which
      is the outcome of the status swap that the start discards. */
  lemma InsertKeepsOneRowIff(db0: Db, db: Db, p: Phase)
    requires DbInv(db0, db) && OneRowPerInvoice(db) && Inserts(p).Some? && CommitTxn(db, p).Some?
    ensures OneRowPerInvoice(CommitTxn(db, p).value) <==> FoundByInvoice(db, Inserts(p).value, None)
    ensures HasStatus(db, Inserts(p).value, Funded) ==> FoundByInvoice(db, Inserts(p).value, None)
  {
    match p {
      case StartReady(inv, rate) =>
        AppendedRow(db, CommitTxn(db, p).value, NewRow(inv, FaceOf(db, inv), Pending, 0, 0, rate, rate));
      case OverdueReady(inv, existing, penalty, rate, dailyRate) =>
        AppendedRow(db, CommitTxn(db, p).value, NewRow(inv, FaceOf(db, inv), RowOverdue, 1, penalty, rate, dailyRate));
    }
    if HasStatus(db, Inserts(p).value, Funded) {
      forall c | 0 <= c < |db.collections| ensures db.collections[c].invoice != Inserts(p).value {
        assert RowAnchored(db, db.collections[c]);
      }
    }
  }

  /** Every other commit leaves the number of rows and the invoice of each alone. */
  lemma OthersInsertNothing(db: Db, p: Phase)
    requires Inserts(p).None? && CommitTxn(db, p).Some?
    ensures SameRows(db, CommitTxn(db, p).value)
  {
    match p
    case PaymentReady(inv, expected, existing, input) => PaymentShape(db, inv, expected, existing, input);
    case OverdueReady(inv, existing, penalty, rate, dailyRate) =>
      UpdateSameRows(db, existing.value, (row: Collection) => WithEscalation(row, RowOverdue, 0, 1, penalty, rate));
    case EscalationReady(inv, c, from, days, penalty, rate) =>
      EscalationSameRows(db, inv, c, from, days, penalty, rate);
    case ManualEscalationReady(c, inv, from) => ManualSameRows(db, c, inv, from);
    case CollectionPaymentReady(c, amount, paidAt) => PartialSameRows(db, c, amount, paidAt);
    case DeescalationReady(c, from) => DeescalationSameRows(db, c, from);
    case ResolveReady(c, inv, seen) => UpdateSameRows(db, c, (row: Collection) => row.(status := RowCollected));
    case DefaultReady(c, inv) => UpdateSameRows(db, c, (row: Collection) => row.(status := BadDebt));
  }

  ghost predicate SameRows(db: Db, db': Db) {
    && |db'.collections| == |db.collections|
    && forall c :: 0 <= c < |db.collections| ==> db'.collections[c].invoice == db.collections[c].invoice
  }

  lemma UpdateSameRows(db: Db, c: CollectionId, f: Collection -> Collection)
    requires forall row :: f(row).invoice == row.invoice
    ensures SameRows(db, UpdateRow(db, c, f))
  {
  }

  lemma EscalationSameRows(db: Db, inv: InvoiceId, c: CollectionId, from: int, days: nat, penalty: nat, rate: string)
    ensures SameRows(db, EscalationTxn(db, inv, c, from, days, penalty, rate))
  {
  }

  lemma ManualSameRows(db: Db, c: CollectionId, inv: InvoiceId, from: int)
    ensures SameRows(db, ManualEscalationTxn(db, c, inv, from))
  {
  }

  lemma PartialSameRows(db: Db, c: CollectionId, amount: int, paidAt: int)
    requires amount > 0
    ensures SameRows(db, CollectionPaymentTxn(db, c, amount, paidAt).value)
  {
  }

  lemma DeescalationSameRows(db: Db, c: CollectionId, from: int)
    ensures SameRows(db, DeescalationTxn(db, c, from))
  {
  }

  /** Every committed insert of the run finds no row of its invoice. */
  ghost predicate CleanInserts(s: State, actions: seq<Action>)
    decreases |actions|
  {
    actions == [] ||
      (&& (InsertsNow(s, actions[0]).Some? ==> FoundByInvoice(s.db, InsertsNow(s, actions[0]).value, None))
       && CleanInserts(Next(s, actions[0]), actions[1..]))
  }

  /** The invoice for which a step commits an insert. */
  function InsertsNow(s: State, a: Action): Option<InvoiceId> {
    if a.Commit? && CommitTxn(s.db, PhaseOf(s, a.worker)).Some? then Inserts(PhaseOf(s, a.worker)) else None
  }

  lemma StepExtends(db0: Db, s: State, a: Action)
    requires StateInv(db0, s)
    ensures Extends(s.db, Next(s, a).db)
  {
    if a.Commit? && CommitTxn(s.db, PhaseOf(s, a.worker)).Some? {
      TxnKeeps(db0, s.db, PhaseOf(s, a.worker));
    } else if a.Elsewhere? && Next(s, a) != s {
      ElsewhereKeepsDb(db0, s.db, a.inv, a.to);
    }
  }

  lemma {:induction false} DuplicatesStay(db0: Db, s: State, actions: seq<Action>)
    requires StateInv(db0, s) && !OneRowPerInvoice(s.db)
    ensures !OneRowPerInvoice(Run(s, actions).db)
    decreases |actions|
  {
    if actions != [] {
      StepExtends(db0, s, actions[0]);
      StepKeeps(db0, s, actions[0]);
      var c, d :| 0 <= c < d < |s.db.collections| && s.db.collections[c].invoice == s.db.collections[d].invoice;
      var db' := Next(s, actions[0]).db;
      assert db'.collections[c].invoice == db'.collections[d].invoice;
      DuplicatesStay(db0, Next(s, actions[0]), actions[1..]);
    }
  }

  lemma StepOneRowIff(db0: Db, s: State, a: Action)
    requires StateInv(db0, s) && OneRowPerInvoice(s.db)
    ensures OneRowPerInvoice(Next(s, a).db) <==>
            (InsertsNow(s, a).Some? ==> FoundByInvoice(s.db, InsertsNow(s, a).value, None))
  {
    if a.Commit? && CommitTxn(s.db, PhaseOf(s, a.worker)).Some? {
      var p := PhaseOf(s, a.worker);
      if Inserts(p).Some? {
        InsertKeepsOneRowIff(db0, s.db, p);
      } else {
        OthersInsertNothing(s.db, p);
      }
    }
  }

  lemma {:induction false} OneRowAfterIff(db0: Db, s: State, actions: seq<Action>)
    requires StateInv(db0, s) && OneRowPerInvoice(s.db)
    ensures OneRowPerInvoice(Run(s, actions).db) <==> CleanInserts(s, actions)
    decreases |actions|
  {
    if actions != [] {
      var s' := Next(s, actions[0]);
      StepOneRowIff(db0, s, actions[0]);
      StepKeeps(db0, s, actions[0]);
      if OneRowPerInvoice(s'.db) {
        OneRowAfterIff(db0, s', actions[1..]);
      } else {
        DuplicatesStay(db0, s', actions[1..]);
      }
    }
  }

  /** A run leaves one row per invoice exactly when it starts so and each of its inserts finds none at its
      commit. */
  lemma OneRowPerInvoiceIff(s0: State, actions: seq<Action>)
    requires Initial(s0)
    ensures OneRowPerInvoice(Run(s0, actions).db) <==> OneRowPerInvoice(s0.db) && CleanInserts(s0, actions)
  {
    InitialInv(s0);
    if OneRowPerInvoice(s0.db) {
      OneRowAfterIff(s0.db, s0, actions);
    } else {
      DuplicatesStay(s0.db, s0, actions);
    }
  }

  lemma {:induction false} RunAppend(s: State, actions: seq<Action>, a: Action)
    ensures Run(s, actions + [a]) == Next(Run(s, actions), a)
    decreases |actions|
  {
    if actions == [] {
      assert actions + [a] == [a] && [a][1..] == [];
      assert Run(Next(s, a), []) == Next(s, a);
    } else {
      assert (actions + [a])[1..] == actions[1..] + [a];
      RunAppend(Next(s, actions[0]), actions[1..], a);
    }
  }

  /** Extending a run by one successful read. */
  lemma ReadNext(s0: State, actions: seq<Action>, w: WorkerId, next: Phase)
    requires CanRead(Run(s0, actions).db, PhaseOf(Run(s0, actions), w), next)
    ensures var s, s' := Run(s0, actions), Run(s0, actions + [Read(w, next)]);
            s'.db == s.db && PhaseOf(s', w) == next && forall v: WorkerId :: v != w ==> PhaseOf(s', v) == PhaseOf(s, v)
  {
    RunAppend(s0, actions, Read(w, next));
  }

  /** Two workers take the same two reads before either writes. */
  lemma BothLook(s0: State, fetched: Phase, ready: Phase) returns (actions: seq<Action>)
    requires s0.workers == map[] && CanRead(s0.db, Idle, fetched) && CanRead(s0.db, fetched, ready)
    ensures var s := Run(s0, actions); s.db == s0.db && PhaseOf(s, 1) == PhaseOf(s, 2) == ready
  {
    actions := [];
    ReadNext(s0, actions, 1, fetched);
    actions := actions + [Read(1, fetched)];
    ReadNext(s0, actions, 2, fetched);
    actions := actions + [Read(2, fetched)];
    ReadNext(s0, actions, 1, ready);
    actions := actions + [Read(1, ready)];
    ReadNext(s0, actions, 2, ready);
    actions := actions + [Read(2, ready)];
  }

  /** Two inserters for one invoice that looked before either wrote leave two rows. */
  lemma BothInsert(s0: State, fetched: Phase, ready: Phase)
    requires s0.workers == map[] && s0.db.systemUserKnown && Inserts(ready).Some?
    requires CanRead(s0.db, Idle, fetched) && CanRead(s0.db, fetched, ready)
    ensures exists actions: seq<Action> :: !OneRowPerInvoice(Run(s0, actions).db)
  {
    var actions := BothLook(s0, fetched, ready);
    RunAppend(s0, actions, Commit(1));
    RunAppend(s0, actions + [Commit(1)], Commit(2));
    BothCommit(Run(s0, actions), ready);
  }

  lemma BothCommit(s: State, ready: Phase)
    requires PhaseOf(s, 1) == PhaseOf(s, 2) == ready && Inserts(ready).Some? && s.db.systemUserKnown
    ensures !OneRowPerInvoice(Next(Next(s, Commit(1)), Commit(2)).db)
  {
    FirstInserts(s, 1, 2, ready);
    SecondDuplicates(Next(s, Commit(1)), 2, ready);
  }

  lemma FirstInserts(s: State, w: WorkerId, v: WorkerId, p: Phase)
    requires PhaseOf(s, w) == PhaseOf(s, v) == p && Inserts(p).Some? && w != v && s.db.systemUserKnown
    ensures var s' := Next(s, Commit(w));
            PhaseOf(s', v) == p && s'.db.systemUserKnown && LastRowIs(s'.db, Inserts(p).value)
  {
  }

  predicate LastRowIs(db: Db, inv: InvoiceId) {
    db.collections != [] && db.collections[|db.collections| - 1].invoice == inv
  }

  lemma SecondDuplicates(s: State, w: WorkerId, p: Phase)
    requires PhaseOf(s, w) == p && Inserts(p).Some? && s.db.systemUserKnown && LastRowIs(s.db, Inserts(p).value)
    ensures !OneRowPerInvoice(Next(s, Commit(w)).db)
  {
    var db', n := Next(s, Commit(w)).db, |s.db.collections|;
    assert |db'.collections| == n + 1 && db'.collections[n - 1].invoice == db'.collections[n].invoice;
  }

  /** Two monitoring workers can leave two rows for a funded invoice, where SYSTEM is a known user. */
  lemma TwoStartersLeaveTwoRows(s0: State, inv: InvoiceId, rate: string)
    requires Initial(s0) && s0.db.systemUserKnown && HasStatus(s0.db, inv, Funded)
    ensures exists actions: seq<Action> :: !OneRowPerInvoice(Run(s0, actions).db)
  {
    forall c | 0 <= c < |s0.db.collections| ensures s0.db.collections[c].invoice != inv {
      assert RowAnchored(s0.db, s0.db.collections[c]);
    }
    BothInsert(s0, StartFetched(inv), StartReady(inv, rate));
  }

  /** So can two overdue workers for a collecting invoice without a row. */
  lemma TwoOverdueLeaveTwoRows(s0: State, inv: InvoiceId, rate: string)
    requires Initial(s0) && s0.db.systemUserKnown && HasStatus(s0.db, inv, Collecting)
    requires FoundByInvoice(s0.db, inv, None) && Penalty.ScaledRate(rate).Some?
    ensures exists actions: seq<Action> :: !OneRowPerInvoice(Run(s0, actions).db)
  {
    var penalty := Penalty.CalculatePenalty(FaceOf(s0.db, inv), 1, rate).value;
    BothInsert(s0, OverdueFetched(inv), OverdueReady(inv, None, penalty, rate, rate));
  }

  // ---------------------------------------------------------------------
  // Where SYSTEM is no user
  // ---------------------------------------------------------------------

  /** Whatever rows there are: without a SYSTEM user no run moves an invoice to collecting, overdue or
      defaulted, or adds a collection row. */
  lemma {:induction false} NoSystemUserNoProgress(s: State, actions: seq<Action>, inv: InvoiceId)
    requires !s.db.systemUserKnown && inv in s.db.status
    ensures var db' := Run(s, actions).db;
            && !db'.systemUserKnown && inv in db'.status && |db'.collections| == |s.db.collections|
            && (db'.status[inv] == Collecting || db'.status[inv] == Overdue || db'.status[inv] == Defaulted ==>
                  db'.status[inv] == s.db.status[inv])
    decreases |actions|
  {
    if actions != [] {
      NoSystemUserStep(s, actions[0], inv);
      NoSystemUserNoProgress(Next(s, actions[0]), actions[1..], inv);
    }
  }

  lemma NoSystemUserStep(s: State, a: Action, inv: InvoiceId)
    requires !s.db.systemUserKnown && inv in s.db.status
    ensures var db' := Next(s, a).db;
            && !db'.systemUserKnown && inv in db'.status && |db'.collections| == |s.db.collections|
            && (db'.status[inv] == s.db.status[inv] || db'.status[inv] == Collected || Rank(db'.status[inv]) <= 1)
  {
    if a.Commit? && CommitTxn(s.db, PhaseOf(s, a.worker)).Some? {
      NoSystemUserCommit(s.db, PhaseOf(s, a.worker), inv);
      OthersInsertNothing(s.db, PhaseOf(s, a.worker));
    }
  }

  lemma NoSystemUserCommit(db: Db, p: Phase, inv: InvoiceId)
    requires !db.systemUserKnown && inv in db.status && CommitTxn(db, p).Some?
    ensures Inserts(p).None?
    ensures var db' := CommitTxn(db, p).value;
            !db'.systemUserKnown && inv in db'.status
              && (db'.status[inv] == db.status[inv] || db'.status[inv] == Collected)
  {
    match p
    case PaymentReady(i, expected, existing, input) => PaymentShape(db, i, expected, existing, input);
    case _ =>
  }

  /** From a start without collection rows, this module then changes nothing at all: every commit aborts. */
  lemma FrozenWithoutSystemUser(s0: State, actions: seq<Action>, inv: InvoiceId)
    requires Initial(s0) && !s0.db.systemUserKnown && s0.db.collections == []
    ensures var s := Run(s0, actions);
            s.db == s0.db.(status := s.db.status) && s.settlementJobs == multiset{} && Changes(s0, actions, inv) == 0
  {
    InitialInv(s0);
    StaysFrozen(s0.db, s0, actions, inv);
  }

  ghost predicate Frozen(s: State) {
    && !s.db.systemUserKnown && s.db.collections == [] && s.settlementJobs == multiset{}
    && forall i: InvoiceId :: PaidCount(s.db.audit, i) == 0
  }

  lemma {:induction false} StaysFrozen(db0: Db, s: State, actions: seq<Action>, inv: InvoiceId)
    requires StateInv(db0, s) && Frozen(s)
    ensures var s' := Run(s, actions);
            s'.db == s.db.(status := s'.db.status) && s'.settlementJobs == multiset{} && Changes(s, actions, inv) == 0
    decreases |actions|
  {
    if actions != [] {
      FrozenStep(db0, s, actions[0]);
      StepKeeps(db0, s, actions[0]);
      StaysFrozen(db0, Next(s, actions[0]), actions[1..], inv);
    }
  }

  lemma FrozenStep(db0: Db, s: State, a: Action)
    requires StateInv(db0, s) && Frozen(s)
    ensures var s' := Next(s, a);
            Frozen(s') && s'.db == s.db.(status := s'.db.status) && (a.Elsewhere? || s'.db == s.db)
  {
    if a.Commit? || a.Dispatch? {
      assert MemoryOk(s.db, PhaseOf(s, a.worker));
      FrozenCommit(s.db, PhaseOf(s, a.worker));
    }
  }

  lemma FrozenCommit(db: Db, p: Phase)
    requires !db.systemUserKnown && db.collections == [] && MemoryOk(db, p)
    ensures CommitTxn(db, p).None?
  {
  }

  // ---------------------------------------------------------------------
  // Audit rows for moves that did not happen
  // ---------------------------------------------------------------------

  /** The invoice a phase means to move, and the status it must still have for the move to happen. */
  function Intends(p: Phase): Option<(InvoiceId, InvoiceStatus)> {
    match p
    case StartReady(inv, _) => Some((inv, Funded))
    case OverdueReady(inv, _, _, _, _) => Some((inv, Collecting))
    case PaymentReady(inv, expected, _, _) => Some((inv, expected))
    case ResolveReady(_, inv, _) => Some((inv, Overdue))
    case DefaultReady(_, inv) => Some((inv, Overdue))
    case _ => None
  }

  /** The audit row says that `inv` was moved. */
  ghost predicate SaysMoved(db: Db, row: AuditRow, inv: InvoiceId) {
    match row
    case CollectionStarted(i) => i == inv
    case InvoiceOverdue(i) => i == inv
    case InvoicePaid(i, _, _) => i == inv
    case CollectionResolved(c, _) => IsRowOf(db, c, inv)
    case InvoiceDefaulted(c) => IsRowOf(db, c, inv)
    case _ => false
  }

  /** From `db` to `db'`: one audit row, which says that `inv` moved exactly when `means`; the status
      changed exactly when also `holds`. */
  ghost predicate Logged(db: Db, db': Db, inv: InvoiceId, means: bool, holds: bool)
    requires inv in db.status
  {
    && |db'.audit| == |db.audit| + 1 && (SaysMoved(db', db'.audit[|db.audit|], inv) <==> means)
    && inv in db'.status && (db'.status[inv] != db.status[inv] <==> means && holds)
  }

  ghost predicate Means(p: Phase, inv: InvoiceId) {
    Intends(p).Some? && Intends(p).value.0 == inv
  }

  ghost predicate Holds(db: Db, p: Phase, inv: InvoiceId) {
    Intends(p).Some? && inv in db.status && db.status[inv] == Intends(p).value.1
  }

  lemma SwapLogged(
    db: Db, written: Db, i: InvoiceId, to: InvoiceStatus, from: InvoiceStatus, row: AuditRow, inv: InvoiceId)
    requires inv in db.status && written.status == db.status && written.audit == db.audit && to != from
    requires SaysMoved(written, row, inv) <==> i == inv
    ensures Logged(db, Audited(CasStatus(written, i, to, from), row), inv, i == inv, db.status[inv] == from)
  {
    assert (db.audit + [row])[|db.audit|] == row;
  }

  lemma StartLogged(db: Db, i: InvoiceId, rate: string, inv: InvoiceId)
    requires inv in db.status
    ensures Logged(db, Started(db, i, rate), inv, i == inv, db.status[inv] == Funded)
  {
    var row := NewRow(i, FaceOf(db, i), Pending, 0, 0, rate, rate);
    SwapLogged(db, db.(collections := db.collections + [row]), i, Collecting, Funded, CollectionStarted(i), inv);
  }

  lemma OverdueLogged(
    db: Db, i: InvoiceId, existing: Option<CollectionId>, penalty: nat, rate: string, dailyRate: string,
    inv: InvoiceId)
    requires inv in db.status
    ensures Logged(db, MarkedOverdue(db, i, existing, penalty, rate, dailyRate), inv, i == inv,
        db.status[inv] == Collecting)
  {
    var written := match existing
      case Some(c) => UpdateRow(db, c, (row: Collection) => WithEscalation(row, RowOverdue, 0, 1, penalty, rate))
      case None => db.(collections :=
        db.collections + [NewRow(i, FaceOf(db, i), RowOverdue, 1, penalty, rate, dailyRate)]);
    SwapLogged(db, written, i, Overdue, Collecting, InvoiceOverdue(i), inv);
  }

  lemma ResolveLogged(db: Db, c: CollectionId, i: InvoiceId, seen: CollectionStatus, inv: InvoiceId)
    requires inv in db.status && IsRowOf(db, c, i)
    ensures Logged(db, Resolved(db, c, i, seen), inv, i == inv, db.status[inv] == Overdue)
  {
    var written := UpdateRow(db, c, (row: Collection) => row.(status := RowCollected));
    SwapLogged(db, written, i, Collected, Overdue, CollectionResolved(c, seen), inv);
  }

  lemma DefaultLogged(db: Db, c: CollectionId, i: InvoiceId, inv: InvoiceId)
    requires inv in db.status && IsRowOf(db, c, i)
    ensures Logged(db, WrittenOff(db, c, i), inv, i == inv, db.status[inv] == Overdue)
  {
    var written := UpdateRow(db, c, (row: Collection) => row.(status := BadDebt));
    SwapLogged(db, written, i, Defaulted, Overdue, InvoiceDefaulted(c), inv);
  }

  lemma PaymentLogged(
    db: Db, i: InvoiceId, from: InvoiceStatus, existing: Option<CollectionId>, input: PaymentInput, inv: InvoiceId)
    requires inv in db.status && from != Collected && PaymentTxn(db, i, from, existing, input).Some?
    ensures Logged(db, PaymentTxn(db, i, from, existing, input).value, inv, i == inv, db.status[inv] == from)
  {
    PaymentShape(db, i, from, existing, input);
  }

  /** A commit that means to move an invoice always writes an audit row saying so; the invoice moves
      exactly when it still has the expected status. No other commit moves it or says so. */
  lemma AuditedMoveHappensIff(db: Db, p: Phase, inv: InvoiceId)
    requires MemoryOk(db, p) && inv in db.status && CommitTxn(db, p).Some?
    ensures Logged(db, CommitTxn(db, p).value, inv, Means(p, inv), Holds(db, p, inv))
    ensures p.PaymentReady? && p.inv == inv ==> Holds(db, p, inv)
  {
    match p
    case StartReady(_, _) => SystemMoveLogged(db, p, inv);
    case OverdueReady(_, _, _, _, _) => SystemMoveLogged(db, p, inv);
    case DefaultReady(_, _) => SystemMoveLogged(db, p, inv);
    case PaymentReady(i, from, existing, input) => PaymentLogged(db, i, from, existing, input, inv);
    case ResolveReady(c, i, seen) => ResolveLogged(db, c, i, seen, inv);
    case _ => OthersLogged(db, p, inv);
  }

  lemma SystemMoveLogged(db: Db, p: Phase, inv: InvoiceId)
    requires MemoryOk(db, p) && inv in db.status && CommitTxn(db, p).Some?
    requires p.StartReady? || p.OverdueReady? || p.DefaultReady?
    ensures Logged(db, CommitTxn(db, p).value, inv, Means(p, inv), Holds(db, p, inv))
  {
    match p
    case StartReady(i, rate) => StartLogged(db, i, rate, inv);
    case OverdueReady(i, existing, penalty, rate, dailyRate) =>
      OverdueLogged(db, i, existing, penalty, rate, dailyRate, inv);
    case DefaultReady(c, i) => DefaultLogged(db, c, i, inv);
  }

  /** The transactions that mean no invoice to move. */
  lemma OthersLogged(db: Db, p: Phase, inv: InvoiceId)
    requires inv in db.status && CommitTxn(db, p).Some? && Intends(p).None?
    ensures Logged(db, CommitTxn(db, p).value, inv, false, false)
  {
  }

  /** The step writes an audit row that says `inv` was moved. */
  ghost predicate SaidMove(s: State, a: Action, inv: InvoiceId) {
    var db, db' := s.db, Next(s, a).db;
    |db'.audit| == |db.audit| + 1 && SaysMoved(db', db'.audit[|db.audit|], inv)
  }

  ghost function SaidMoves(s: State, actions: seq<Action>, inv: InvoiceId): nat
    decreases |actions|
  {
    if actions == [] then 0
    else (if SaidMove(s, actions[0], inv) then 1 else 0) + SaidMoves(Next(s, actions[0]), actions[1..], inv)
  }

  /** The step commits a move of `inv` whose expected status is gone. */
  ghost predicate StaleMove(s: State, a: Action, inv: InvoiceId) {
    && a.Commit? && CommitTxn(s.db, PhaseOf(s, a.worker)).Some?
    && Means(PhaseOf(s, a.worker), inv) && !Holds(s.db, PhaseOf(s, a.worker), inv)
  }

  ghost function StaleMoves(s: State, actions: seq<Action>, inv: InvoiceId): nat
    decreases |actions|
  {
    if actions == [] then 0
    else (if StaleMove(s, actions[0], inv) then 1 else 0) + StaleMoves(Next(s, actions[0]), actions[1..], inv)
  }

  lemma StepLogged(db0: Db, s: State, a: Action, inv: InvoiceId)
    requires StateInv(db0, s) && inv in s.db.status
    ensures inv in Next(s, a).db.status
    ensures var changed := !a.Elsewhere? && Next(s, a).db.status[inv] != s.db.status[inv];
            (SaidMove(s, a, inv) <==> changed || StaleMove(s, a, inv)) && !(changed && StaleMove(s, a, inv))
  {
    if a.Commit? && CommitTxn(s.db, PhaseOf(s, a.worker)).Some? {
      assert MemoryOk(s.db, PhaseOf(s, a.worker));
      AuditedMoveHappensIff(s.db, PhaseOf(s, a.worker), inv);
    }
  }

  lemma {:induction false} LogAfter(db0: Db, s: State, actions: seq<Action>, inv: InvoiceId)
    requires StateInv(db0, s) && inv in s.db.status
    ensures SaidMoves(s, actions, inv) == Changes(s, actions, inv) + StaleMoves(s, actions, inv)
    decreases |actions|
  {
    if actions != [] {
      StepLogged(db0, s, actions[0], inv);
      StepKeeps(db0, s, actions[0]);
      LogAfter(db0, Next(s, actions[0]), actions[1..], inv);
    }
  }

  /** In every run the audit log says as many moves of an invoice as happened, plus one for each commit
      whose expected status was gone; so it tells the truth exactly when there was none. */
  lemma LogIsTruthfulIff(s0: State, actions: seq<Action>, inv: InvoiceId)
    requires Initial(s0) && inv in s0.db.terms
    ensures SaidMoves(s0, actions, inv) == Changes(s0, actions, inv) + StaleMoves(s0, actions, inv)
    ensures SaidMoves(s0, actions, inv) == Changes(s0, actions, inv) <==> StaleMoves(s0, actions, inv) == 0
  {
    InitialInv(s0);
    LogAfter(s0.db, s0, actions, inv);
  }

  lemma {:induction false} StaleMovesAppend(s: State, actions: seq<Action>, a: Action, inv: InvoiceId)
    ensures StaleMoves(s, actions + [a], inv)
            == StaleMoves(s, actions, inv) + if StaleMove(Run(s, actions), a, inv) then 1 else 0
    decreases |actions|
  {
    if actions == [] {
      assert actions + [a] == [a] && [a][1..] == [];
    } else {
      assert (actions + [a])[1..] == actions[1..] + [a];
      StaleMovesAppend(Next(s, actions[0]), actions[1..], a, inv);
    }
  }

  /** Two officers who both saw an overdue row resolve it: the second writes an audit row for a move that
      did not happen. No SYSTEM user is needed, only a row to start with. */
  lemma TwoResolversWriteFalseRow(s0: State, c: CollectionId, inv: InvoiceId)
    requires Initial(s0) && HasStatus(s0.db, inv, Overdue) && IsRowOf(s0.db, c, inv)
    requires s0.db.collections[c].status == RowOverdue
    ensures exists actions: seq<Action> ::
              SaidMoves(s0, actions, inv) > Changes(s0, actions, inv) && StaleMoves(s0, actions, inv) >= 1
  {
    var ready := ResolveReady(c, inv, RowOverdue);
    var two := BothReadOnce(s0, ready);
    var s := Run(s0, two);
    RunAppend(s0, two, Commit(1));
    FirstResolves(s, 1, 2, ready);
    var three := two + [Commit(1)];
    StaleMovesAppend(s0, three, Commit(2), inv);
    LogIsTruthfulIff(s0, three + [Commit(2)], inv);
  }

  lemma BothReadOnce(s0: State, ready: Phase) returns (actions: seq<Action>)
    requires s0.workers == map[] && CanRead(s0.db, Idle, ready)
    ensures var s := Run(s0, actions); s.db == s0.db && PhaseOf(s, 1) == PhaseOf(s, 2) == ready
  {
    ReadNext(s0, [], 1, ready);
    ReadNext(s0, [] + [Read(1, ready)], 2, ready);
    actions := [] + [Read(1, ready)] + [Read(2, ready)];
  }

  lemma FirstResolves(s: State, w: WorkerId, v: WorkerId, ready: Phase)
    requires PhaseOf(s, w) == PhaseOf(s, v) == ready && w != v
    requires ready.ResolveReady? && ready.seen == RowOverdue && HasStatus(s.db, ready.inv, Overdue)
    ensures var s' := Next(s, Commit(w));
            PhaseOf(s', v) == ready && HasStatus(s'.db, ready.inv, Collected) && StaleMove(s', Commit(v), ready.inv)
  {
  }
}
