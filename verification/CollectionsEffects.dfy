/** What each transaction writes, field by field, and that every operation has a run that does it: the
    other half of the safety theorems, which speak of what a commit may not do. */
module CollectionsEffects {
  import opened Common
  import opened InvoiceStatuses
  import opened CollectionsModel
  import opened CollectionsProofs
  import opened CollectionsRaces
  import Penalty

  // ---------------------------------------------------------------------
  // The buyer of a paid invoice
  // ---------------------------------------------------------------------

  /** A whole-invoice payment commits exactly when the invoice still has the status read, a collection row
      was found, the amount is positive and the buyer's used limit covers the face value. */
  lemma PaymentCommitsIff(db: Db, inv: InvoiceId, from: InvoiceStatus, coll: Option<CollectionId>, input: PaymentInput)
    requires inv in db.terms && db.terms[inv].buyer in db.buyers
    ensures PaymentTxn(db, inv, from, coll, input).Some? <==>
              && HasStatus(db, inv, from) && coll.Some? && input.amount > 0
              && db.terms[inv].face <= db.buyers[db.terms[inv].buyer].usedLimit
  {
  }

  /** The payment lifts a score by five if it comes before the day after the due date, and otherwise costs
      one point for each whole day it is late, up to twenty, within 0..100. No other buyer changes. */
  lemma PaymentMovesScore(
    db: Db, inv: InvoiceId, from: InvoiceStatus, coll: Option<CollectionId>, input: PaymentInput, db': Db)
    requires PaymentTxn(db, inv, from, coll, input) == Some(db')
    requires 0 <= db.buyers[db.terms[inv].buyer].score <= 100
    ensures var b, due := db.terms[inv].buyer, db.terms[inv].dueAt;
            && db'.buyers.Keys == db.buyers.Keys
            && (forall o :: o in db.buyers && o != b ==> db'.buyers[o] == db.buyers[o])
            && var score, score' := db.buyers[b].score, db'.buyers[b].score;
               && (input.paidAt < due + 86_400_000 ==> score' == score + 5 || (score' == 100 && score > 95))
               && (forall d :: 1 <= d <= 20 && PaidOnLateDay(input.paidAt, due, d) ==>
                     score' == score - d || (score' == 0 && score < d))
               && (forall d :: d > 20 && PaidOnLateDay(input.paidAt, due, d) ==>
                     score' == score - 20 || (score' == 0 && score < 20))
  {
    PaymentShape(db, inv, from, coll, input);
    var due := db.terms[inv].dueAt;
    forall d | PaidOnLateDay(input.paidAt, due, d) ensures DaysLate(input.paidAt, due) == d {
      LateDayUnique(input.paidAt, due, d);
    }
  }

  /** The payment comes `d` whole days, and no more, after the due date. */
  predicate PaidOnLateDay(paidAt: int, dueAt: int, d: int) {
    dueAt + 86_400_000 * d <= paidAt < dueAt + 86_400_000 * (d + 1)
  }

  lemma LateDayUnique(paidAt: int, dueAt: int, d: int)
    requires PaidOnLateDay(paidAt, dueAt, d)
    ensures DaysLate(paidAt, dueAt) == d
  {
  }

  /** Of two payments of one invoice the later never leaves the buyer the higher score. */
  lemma LaterPaymentScoresNoHigher(
    db: Db, inv: InvoiceId, from: InvoiceStatus, coll: Option<CollectionId>,
    early: PaymentInput, late: PaymentInput, e: Db, l: Db)
    requires PaymentTxn(db, inv, from, coll, early) == Some(e) && PaymentTxn(db, inv, from, coll, late) == Some(l)
    requires early.paidAt <= late.paidAt && 0 <= db.buyers[db.terms[inv].buyer].score <= 100
    ensures db.terms[inv].buyer in e.buyers && db.terms[inv].buyer in l.buyers
    ensures e.buyers[db.terms[inv].buyer].score >= l.buyers[db.terms[inv].buyer].score
  {
    PaymentShape(db, inv, from, coll, early);
    PaymentShape(db, inv, from, coll, late);
    DaysLateMonotone(early.paidAt, late.paidAt, db.terms[inv].dueAt);
  }

  lemma DaysLateMonotone(early: int, late: int, dueAt: int)
    requires early <= late
    ensures DaysLate(early, dueAt) <= DaysLate(late, dueAt)
  {
  }

  // ---------------------------------------------------------------------
  // The collection row a transaction writes
  // ---------------------------------------------------------------------

  /** No row but `c` differs. */
  ghost predicate OnlyRow(db: Db, db': Db, c: CollectionId) {
    && c < |db.collections| == |db'.collections|
    && forall d :: 0 <= d < |db.collections| && d != c ==> db'.collections[d] == db.collections[d]
  }

  /** The rows are as before, with one more at the end. */
  ghost predicate OneMoreRow(db: Db, db': Db) {
    && |db'.collections| == |db.collections| + 1
    && forall d :: 0 <= d < |db.collections| ==> db'.collections[d] == db.collections[d]
  }

  /** Nothing was ever collected, escalated or flagged on the row. */
  predicate Untouched(row: Collection) {
    row.level == 0 && row.totalCollected == 0 && !row.sarFlagged && !row.demandNoticeSent
  }

  lemma StartWrites(db: Db, inv: InvoiceId, rate: string)
    ensures var db' := Started(db, inv, rate);
            && OneMoreRow(db, db')
            && var row := db'.collections[|db.collections|];
               && row.invoice == inv && row.face == FaceOf(db, inv) && row.dailyRate == rate
               && row.status == Pending && row.days == 0 && row.penalty == 0 && Untouched(row)
  {
  }

  /** The day after the due date: one day, its penalty, level zero. A found row keeps its identity, total,
      flags and rate column. */
  lemma OverdueWrites(
    db: Db, inv: InvoiceId, existing: Option<CollectionId>, penalty: nat, rate: string, dailyRate: string)
    requires existing.Some? ==> existing.value < |db.collections|
    ensures var db' := MarkedOverdue(db, inv, existing, penalty, rate, dailyRate);
            && (existing.None? ==>
                  && OneMoreRow(db, db')
                  && var row := db'.collections[|db.collections|];
                     && row.invoice == inv && row.face == FaceOf(db, inv) && row.dailyRate == dailyRate
                     && row.status == RowOverdue && row.days == 1 && row.penalty == penalty && Untouched(row))
            && (existing.Some? ==>
                  && OnlyRow(db, db', existing.value)
                  && var row, row' := db.collections[existing.value], db'.collections[existing.value];
                     && row'.status == RowOverdue && row'.level == 0 && row'.days == 1 && row'.penalty == penalty
                     && SameIdentity(row, row') && row'.dailyRate == row.dailyRate
                     && row'.sarFlagged == row.sarFlagged && row'.demandNoticeSent == row.demandNoticeSent)
  {
  }

  /** The row after an automatic escalation: its level is at least one, two, three exactly from day three,
      seven, fourteen; from day seven on the demand notice is out; at level three a face value above the
      threshold is flagged; neither is ever taken back. */
  lemma EscalationWrites(
    db: Db, inv: InvoiceId, c: CollectionId, from: int, days: nat, penalty: nat, rate: string)
    requires IsRowOf(db, c, inv)
    ensures var db' := EscalationTxn(db, inv, c, from, days, penalty, rate);
            && OnlyRow(db, db', c)
            && var row, row' := db.collections[c], db'.collections[c];
               && (row'.level >= 1 <==> days >= 3) && (row'.level >= 2 <==> days >= 7)
               && (row'.level >= 3 <==> days >= 14) && 0 <= row'.level <= 3
               && row'.status == Escalated && row'.days == days && row'.penalty == penalty && row'.rate == rate
               && (row'.demandNoticeSent <==> row.demandNoticeSent || days >= 7)
               && (row'.sarFlagged <==> row.sarFlagged || (days >= 14 && FaceOf(db, inv) >= db.amlThreshold))
               && SameIdentity(row, row') && row'.dailyRate == row.dailyRate
  {
  }

  /** A whole-invoice payment closes the row found, resets its level and overwrites its total. */
  lemma PaymentWrites(
    db: Db, inv: InvoiceId, from: InvoiceStatus, c: CollectionId, input: PaymentInput, db': Db)
    requires c < |db.collections| && PaymentTxn(db, inv, from, Some(c), input) == Some(db')
    ensures OnlyRow(db, db', c)
    ensures var row' := db'.collections[c];
            && row'.status == RowCollected && row'.level == 0 && row'.totalCollected == input.amount
            && SameRest(db.collections[c], row')
    ensures db'.payments == db.payments + [Payment(c, input.amount, input.paidAt, true)]
  {
    PaymentShape(db, inv, from, Some(c), input);
  }

  /** Everything but status, level and total. */
  ghost predicate SameRest(row: Collection, row': Collection) {
    && row'.invoice == row.invoice && row'.face == row.face && row'.days == row.days && row'.penalty == row.penalty
    && row'.rate == row.rate && row'.dailyRate == row.dailyRate
    && row'.sarFlagged == row.sarFlagged && row'.demandNoticeSent == row.demandNoticeSent
  }

  /** A partial payment adds to the total and leaves status and level alone. */
  lemma CollectionPaymentWrites(db: Db, c: CollectionId, amount: int, paidAt: int)
    requires c < |db.collections|
    ensures CollectionPaymentTxn(db, c, amount, paidAt).Some? <==> amount > 0
    ensures amount > 0 ==>
              var db' := CollectionPaymentTxn(db, c, amount, paidAt).value;
              && OnlyRow(db, db', c) && SameRest(db.collections[c], db'.collections[c])
              && db'.collections[c].status == db.collections[c].status
              && db'.collections[c].level == db.collections[c].level
              && db'.collections[c].totalCollected == db.collections[c].totalCollected + amount
              && db'.payments == db.payments + [Payment(c, amount, paidAt, false)]
  {
  }

  /** Resolving and defaulting change the status of one row and nothing else in it. */
  lemma ClosingWrites(db: Db, c: CollectionId, inv: InvoiceId, seen: CollectionStatus)
    requires c < |db.collections|
    ensures OnlyRow(db, Resolved(db, c, inv, seen), c) && OnlyRow(db, WrittenOff(db, c, inv), c)
    ensures Resolved(db, c, inv, seen).collections[c] == db.collections[c].(status := RowCollected)
    ensures WrittenOff(db, c, inv).collections[c] == db.collections[c].(status := BadDebt)
    ensures ResolveTxn(db, c, inv, seen).Some? <==> seen == RowOverdue || seen == Escalated
  {
  }

  // ---------------------------------------------------------------------
  // What a worker acts on
  // ---------------------------------------------------------------------

  lemma RunLast(s0: State, actions: seq<Action>)
    requires actions != []
    ensures Run(s0, actions) == Next(Run(s0, actions[..|actions| - 1]), actions[|actions| - 1])
  {
    var front, last := actions[..|actions| - 1], actions[|actions| - 1];
    assert front + [last] == actions;
    RunAppend(s0, front, last);
  }

  /** The phase was read at the end of the first `k` actions. */
  ghost predicate ReadAt(s0: State, actions: seq<Action>, k: nat, p: Phase)
    requires k <= |actions|
  {
    exists cur :: CanRead(Run(s0, actions[..k]).db, cur, p)
  }

  /** Whatever a worker is about to commit, it once read, and passed the checks on it, earlier in the run. */
  lemma {:induction false} PhaseWasRead(s0: State, actions: seq<Action>, w: WorkerId)
    requires s0.workers == map[]
    requires !PhaseOf(Run(s0, actions), w).Idle? && !PhaseOf(Run(s0, actions), w).PaymentDispatch?
    ensures exists k: nat :: k <= |actions| && ReadAt(s0, actions, k, PhaseOf(Run(s0, actions), w))
    decreases |actions|
  {
    if actions != [] {
      var n := |actions| - 1;
      var s, a, p := Run(s0, actions[..n]), actions[n], PhaseOf(Run(s0, actions), w);
      RunLast(s0, actions);
      if PhaseOf(s, w) == p {
        PhaseWasRead(s0, actions[..n], w);
        var k: nat :| k <= n && ReadAt(s0, actions[..n], k, p);
        assert actions[..n][..k] == actions[..k];
        assert ReadAt(s0, actions, k, p);
      } else {
        NewPhaseIsRead(s, a, w);
        assert ReadAt(s0, actions, n, p);
      }
    }
  }

  lemma NewPhaseIsRead(s: State, a: Action, w: WorkerId)
    requires PhaseOf(Next(s, a), w) != PhaseOf(s, w)
    requires !PhaseOf(Next(s, a), w).Idle? && !PhaseOf(Next(s, a), w).PaymentDispatch?
    ensures CanRead(s.db, PhaseOf(s, w), PhaseOf(Next(s, a), w))
  {
  }

  /** So nothing is written off that was not seen at level three, ninety days overdue, and still open. */
  lemma DefaultsAreDue(s0: State, actions: seq<Action>, w: WorkerId, c: CollectionId, inv: InvoiceId)
    requires s0.workers == map[] && PhaseOf(Run(s0, actions), w) == DefaultReady(c, inv)
    ensures exists k: nat :: k <= |actions| && IsDue(Run(s0, actions[..k]).db, c, inv)
  {
    PhaseWasRead(s0, actions, w);
    var k: nat :| k <= |actions| && ReadAt(s0, actions, k, DefaultReady(c, inv));
    assert IsDue(Run(s0, actions[..k]).db, c, inv);
  }

  ghost predicate IsDue(db: Db, c: CollectionId, inv: InvoiceId) {
    && IsRowOf(db, c, inv) && db.collections[c].level == 3 && db.collections[c].days >= 90
    && (db.collections[c].status == RowOverdue || db.collections[c].status == Escalated)
  }

  // ---------------------------------------------------------------------
  // Every operation has its run
  // ---------------------------------------------------------------------

  lemma RunTwo(s: State, a: Action, b: Action)
    ensures Run(s, [a, b]) == Next(Next(s, a), b)
  {
    assert [a, b][1..] == [b] && [b][1..] == [];
    assert Run(Next(Next(s, a), b), []) == Next(Next(s, a), b);
  }

  lemma RunThree(s: State, a: Action, b: Action, c: Action)
    ensures Run(s, [a, b, c]) == Next(Next(Next(s, a), b), c)
  {
    assert [a, b, c][1..] == [b, c];
    RunTwo(Next(s, a), b, c);
  }

  /** A funded invoice without a row is started, where SYSTEM is known. */
  lemma StartRuns(s: State, w: WorkerId, inv: InvoiceId, rate: string)
    requires PhaseOf(s, w).Idle? && HasStatus(s.db, inv, Funded) && FoundByInvoice(s.db, inv, None)
    requires s.db.systemUserKnown
    ensures exists actions: seq<Action> :: Run(s, actions).db == Started(s.db, inv, rate)
  {
    var ready := StartReady(inv, rate);
    RunThree(s, Read(w, StartFetched(inv)), Read(w, ready), Commit(w));
    assert PhaseOf(Next(Next(s, Read(w, StartFetched(inv))), Read(w, ready)), w) == ready;
  }

  /** A collecting invoice is marked overdue, where SYSTEM is known. */
  lemma OverdueRuns(
    s: State, w: WorkerId, inv: InvoiceId, existing: Option<CollectionId>,
    penalty: nat, rate: string, dailyRate: string)
    requires PhaseOf(s, w).Idle? && HasStatus(s.db, inv, Collecting) && FoundByInvoice(s.db, inv, existing)
    requires Penalty.CalculatePenalty(FaceOf(s.db, inv), 1, rate) == Some(penalty) && s.db.systemUserKnown
    ensures exists actions: seq<Action> ::
              Run(s, actions).db == MarkedOverdue(s.db, inv, existing, penalty, rate, dailyRate)
  {
    var ready := OverdueReady(inv, existing, penalty, rate, dailyRate);
    RunThree(s, Read(w, OverdueFetched(inv)), Read(w, ready), Commit(w));
    assert PhaseOf(Next(Next(s, Read(w, OverdueFetched(inv))), Read(w, ready)), w) == ready;
  }

  /** A payment that can commit is committed, and its settlement enqueued. */
  lemma PaymentRuns(
    s: State, w: WorkerId, inv: InvoiceId, from: InvoiceStatus, existing: Option<CollectionId>,
    input: PaymentInput, db': Db)
    requires PhaseOf(s, w).Idle? && HasStatus(s.db, inv, from) && from != Collected
    requires FoundByInvoice(s.db, inv, existing) && PaymentTxn(s.db, inv, from, existing, input) == Some(db')
    ensures exists actions: seq<Action> ::
              Run(s, actions).db == db' && Run(s, actions).settlementJobs == s.settlementJobs + multiset{inv}
  {
    var fetched, ready := PaymentFetched(inv, from), PaymentReady(inv, from, existing, input);
    var three := [Read(w, fetched), Read(w, ready), Commit(w)];
    RunThree(s, Read(w, fetched), Read(w, ready), Commit(w));
    var s2 := Next(Next(s, Read(w, fetched)), Read(w, ready));
    assert s2.db == s.db && PhaseOf(s2, w) == ready && s2.settlementJobs == s.settlementJobs;
    RunAppend(s, three, Dispatch(w));
  }

  /** Any operation that reads once and commits. */
  lemma ReadCommitRuns(s: State, w: WorkerId, ready: Phase)
    requires PhaseOf(s, w).Idle? && CanRead(s.db, Idle, ready) && CommitTxn(s.db, ready).Some?
    ensures exists actions: seq<Action> :: Run(s, actions).db == CommitTxn(s.db, ready).value
  {
    RunTwo(s, Read(w, ready), Commit(w));
    assert PhaseOf(Next(s, Read(w, ready)), w) == ready;
  }

  /** A row below the level of its days is escalated. */
  lemma EscalationRuns(s: State, w: WorkerId, inv: InvoiceId, c: CollectionId, days: nat, penalty: nat, rate: string)
    requires PhaseOf(s, w).Idle? && inv in s.db.terms && IsRowOf(s.db, c, inv)
    requires var level := s.db.collections[c].level;
             (days >= 3 && level < 1) || (days >= 7 && level < 2) || (days >= 14 && level < 3)
    requires Penalty.CalculatePenalty(FaceOf(s.db, inv), days, rate) == Some(penalty)
    ensures exists actions: seq<Action> ::
              Run(s, actions).db == EscalationTxn(s.db, inv, c, s.db.collections[c].level, days, penalty, rate)
  {
    ReadCommitRuns(s, w, EscalationReady(inv, c, s.db.collections[c].level, days, penalty, rate));
  }

  /** An open row takes a partial payment. */
  lemma CollectionPaymentRuns(s: State, w: WorkerId, c: CollectionId, amount: int, paidAt: int)
    requires PhaseOf(s, w).Idle? && c < |s.db.collections| && s.db.collections[c].status != RowCollected && amount > 0
    ensures exists actions: seq<Action> :: Some(Run(s, actions).db) == CollectionPaymentTxn(s.db, c, amount, paidAt)
  {
    ReadCommitRuns(s, w, CollectionPaymentReady(c, amount, paidAt));
  }

  /** An open row can be escalated by hand. */
  lemma ManualEscalationRuns(s: State, w: WorkerId, c: CollectionId)
    requires PhaseOf(s, w).Idle? && c < |s.db.collections| && s.db.collections[c].status != RowCollected
    ensures exists actions: seq<Action> ::
              Run(s, actions).db == ManualEscalationTxn(s.db, c, s.db.collections[c].invoice, s.db.collections[c].level)
  {
    ReadCommitRuns(s, w, ManualEscalationReady(c, s.db.collections[c].invoice, s.db.collections[c].level));
  }

  /** A row with a level, open or not, can be de-escalated. */
  lemma DeescalationRuns(s: State, w: WorkerId, c: CollectionId)
    requires PhaseOf(s, w).Idle? && c < |s.db.collections| && s.db.collections[c].level > 0
    ensures exists actions: seq<Action> :: Run(s, actions).db == DeescalationTxn(s.db, c, s.db.collections[c].level)
  {
    ReadCommitRuns(s, w, DeescalationReady(c, s.db.collections[c].level));
  }

  /** An overdue or escalated row is resolved, and at level three and ninety days written off, where SYSTEM
      is known. */
  lemma ClosingRuns(s: State, w: WorkerId, c: CollectionId, inv: InvoiceId)
    requires PhaseOf(s, w).Idle? && IsRowOf(s.db, c, inv)
    requires s.db.collections[c].status == RowOverdue || s.db.collections[c].status == Escalated
    ensures exists actions: seq<Action> ::
              Run(s, actions).db == Resolved(s.db, c, inv, s.db.collections[c].status)
    ensures s.db.collections[c].level == 3 && s.db.collections[c].days >= 90 && s.db.systemUserKnown ==>
              exists actions: seq<Action> :: Run(s, actions).db == WrittenOff(s.db, c, inv)
  {
    ReadCommitRuns(s, w, ResolveReady(c, inv, s.db.collections[c].status));
    if s.db.collections[c].level == 3 && s.db.collections[c].days >= 90 && s.db.systemUserKnown {
      ReadCommitRuns(s, w, DefaultReady(c, inv));
    }
  }
}
