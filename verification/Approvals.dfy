/** The approval quorum protocol of one priced invoice: any number of approvers and rejecters, a row
    lock, a status check that precedes the lock, a payment job that precedes the commit, and a supplier
    who may reject the pricing meanwhile. */
module Approvals {
  import opened Common
  import opened InvoiceStatuses

  type UserId = nat
  type WorkerId = nat

  /** The approver recorded for automatic approvals. */
  const SYSTEM: UserId := 0

  datatype Tier = Auto | Tier2 | Tier3 | Tier4

  datatype Role = Management | CreditOfficer | OtherRole

  function TierRank(t: Tier): nat {
    match t case Auto => 1 case Tier2 => 2 case Tier3 => 3 case Tier4 => 4
  }

  function DetermineTier(face: nat, score: real, amlFlagged: bool): Tier {
    if face > 200_000_000 || score < 30.0 then Tier4
    else if face > 50_000_000 || score < 50.0 then Tier3
    else if face >= 10_000_000 || (50.0 <= score && score < 75.0) || amlFlagged then Tier2
    else Auto
  }

  /** A larger invoice, a worse score or an AML flag never lowers the tier. */
  lemma TierMonotone(face: nat, score: real, aml: bool, face': nat, score': real, aml': bool)
    requires face <= face' && score >= score' && (aml ==> aml')
    ensures TierRank(DetermineTier(face, score, aml)) <= TierRank(DetermineTier(face', score', aml'))
  {
    var t, t' := DetermineTier(face, score, aml), DetermineTier(face', score', aml');
    assert t == Tier4 ==> t' == Tier4;
    assert t == Tier3 ==> t' == Tier3 || t' == Tier4;
  }

  /** Where the tiers begin: the fourth above 200 million or below score 30, the third above 50 million or
      below 50, the second from 10 million or below 75 or with an AML flag. */
  lemma TierBegins(face: nat, score: real, aml: bool)
    ensures var rank := TierRank(DetermineTier(face, score, aml));
            && (rank >= 4 <==> face > 200_000_000 || score < 30.0)
            && (rank >= 3 <==> face > 50_000_000 || score < 50.0)
            && (rank >= 2 <==> face >= 10_000_000 || score < 75.0 || aml)
            && 1 <= rank <= 4
  {
  }

  // ---------------------------------------------------------------------
  // Rows and transactions
  // ---------------------------------------------------------------------

  /** Committed decisions and counter resets, oldest first. The role is the one acted under. */
  datatype Entry = Approval(user: UserId, role: Role) | Rejection(user: UserId) | Reset

  /** `pricingRejected` is whether pricing_rejected_at is set. */
  datatype Row = Row(status: InvoiceStatus, log: seq<Entry>, rejections: nat, pricingRejected: bool)

  /** Approved, or moved on from there by payments and collections. */
  predicate Granted(s: InvoiceStatus) {
    s == Approved || s == PendingFirstAuth || s == PendingSecondAuth || s == Executing
    || s == Funded || s == Collecting || s == Overdue || s == Collected || s == Defaulted
  }

  function CountApprovals(log: seq<Entry>): nat {
    if log == [] then 0 else CountApprovals(log[..|log| - 1]) + if log[|log| - 1].Approval? then 1 else 0
  }

  predicate Decided(log: seq<Entry>, user: UserId) {
    exists i :: 0 <= i < |log| && !log[i].Reset? && log[i].user == user
  }

  /** validateTier3Officer and validateTier4Officer; the other tiers accept anyone. */
  predicate OfficerAllowed(tier: Tier, user: UserId, role: Role, existing: seq<Entry>) {
    match tier
    case Tier3 => role == Management || !Decided(existing, user)
    case Tier4 => !Decided(existing, user) && (role == Management || role == CreditOfficer)
    case _ => true
  }

  predicate QuorumReached(tier: Tier, role: Role, existing: seq<Entry>) {
    match tier
    case Tier3 => CountApprovals(existing) + 1 >= 2
    case Tier4 => CountApprovals(existing) + 1 >= 2 && role == Management
    case _ => true
  }

  function Swap(status: InvoiceStatus, to: InvoiceStatus, from: InvoiceStatus): InvoiceStatus {
    if status == from then to else status
  }

  function ApprovalEntry(tier: Tier, user: UserId, role: Role): Entry {
    Approval(if tier == Auto then SYSTEM else user, role)
  }

  function CommitApproval(tier: Tier, row: Row, user: UserId, role: Role, existing: seq<Entry>): Row {
    row.(status := if QuorumReached(tier, role, existing) then Swap(row.status, Approved, Priced) else row.status,
         log := row.log + [ApprovalEntry(tier, user, role)])
  }

  function CommitRejection(tier: Tier, threshold: nat, row: Row, user: UserId): Row {
    var count := if tier == Tier3 then row.rejections + 1 else row.rejections;
    row.(status := if tier == Tier3 && count < threshold then row.status else Swap(row.status, Rejected, Priced),
         log := row.log + [Rejection(user)], rejections := count)
  }

  function CommitReset(row: Row): Row {
    row.(log := row.log + [Reset], rejections := 0)
  }

  /** The supplier turns the pricing down; the status moves only if it is still priced. */
  function CommitPricingRejection(row: Row): Row {
    row.(status := Swap(row.status, Rejected, Priced), pricingRejected := true)
  }

  // ---------------------------------------------------------------------
  // Workers
  // ---------------------------------------------------------------------

  datatype Request = Approve(user: UserId, role: Role) | Reject(user: UserId)

  datatype Phase =
    | Idle
    | Validated(req: Request)
    | Locked(req: Request)
    | Looked(req: Request, existing: seq<Entry>)
    | Enqueued(req: Request, existing: seq<Entry>)

  /** Tier, threshold and queue configuration are fixed while the invoice is priced. `recordsTier4` is
      whether the CHECK constraints on approvals.tier admit TIER_4. */
  datatype State = State(
    tier: Tier, threshold: nat, queueConfigured: bool, recordsTier4: bool,
    row: Row, lock: Option<WorkerId>, jobs: nat, workers: map<WorkerId, Phase>)

  datatype Action =
    | Validate(worker: WorkerId, req: Request)
    | Lock(worker: WorkerId)
    | Look(worker: WorkerId)
    | Enqueue(worker: WorkerId)
    | Commit(worker: WorkerId)
    | Rollback(worker: WorkerId)
    | ResetCount
    | RejectPricing
    | Onward(to: InvoiceStatus)

  /** The database takes a decision record of this invoice's tier. */
  predicate Recordable(s: State) {
    s.tier == Tier4 ==> s.recordsTier4
  }

  function PhaseOf(s: State, w: WorkerId): Phase {
    if w in s.workers then s.workers[w] else Idle
  }

  function Move(s: State, w: WorkerId, p: Phase): State {
    s.(workers := s.workers[w := p])
  }

  function Release(s: State, w: WorkerId): State {
    Move(s, w, Idle).(lock := if s.lock == Some(w) then None else s.lock)
  }

  /** One step; impossible steps leave the state alone. Looking also runs the officer checks and inserts
      the record, and a failure of either rolls back. An approval that reaches its quorum commits only
      after its job is enqueued. Updates without the lock of their own wait for it. */
  function Next(s: State, a: Action): State {
    match a
    case Validate(w, req) =>
      if PhaseOf(s, w).Idle? && s.row.status == Priced then Move(s, w, Validated(req)) else s
    case Lock(w) =>
      if PhaseOf(s, w).Validated? && s.lock.None?
      then Move(s, w, Locked(PhaseOf(s, w).req)).(lock := Some(w)) else s
    case Look(w) =>
      var p := PhaseOf(s, w);
      if p.Locked? && p.req.Approve? then
        if OfficerAllowed(s.tier, p.req.user, p.req.role, s.row.log) && Recordable(s)
          then Move(s, w, Looked(p.req, s.row.log)) else Release(s, w)
      else s
    case Enqueue(w) =>
      var p := PhaseOf(s, w);
      if p.Looked? && p.req.Approve? && QuorumReached(s.tier, p.req.role, p.existing)
      then Move(s, w, Enqueued(p.req, p.existing)).(jobs := s.jobs + if s.queueConfigured then 1 else 0) else s
    case Commit(w) =>
      var p := PhaseOf(s, w);
      if p.Locked? && p.req.Reject? then
        if Recordable(s) then Release(s, w).(row := CommitRejection(s.tier, s.threshold, s.row, p.req.user))
          else Release(s, w)
      else if (p.Looked? || p.Enqueued?) && p.req.Approve?
        && (p.Enqueued? <==> QuorumReached(s.tier, p.req.role, p.existing)) then
        Release(s, w).(row := CommitApproval(s.tier, s.row, p.req.user, p.req.role, p.existing))
      else s
    case Rollback(w) => Release(s, w)
    case ResetCount => if s.lock.None? then s.(row := CommitReset(s.row)) else s
    case RejectPricing => if s.lock.None? then s.(row := CommitPricingRejection(s.row)) else s
    case Onward(to) => if s.lock.None? && Granted(s.row.status) && Granted(to)
      then s.(row := s.row.(status := to)) else s
  }

  function Run(s: State, actions: seq<Action>): State
    decreases |actions|
  {
    if actions == [] then s else Run(Next(s, actions[0]), actions[1..])
  }

  predicate Initial(s: State) {
    s.row == Row(Priced, [], 0, false) && s.lock.None? && s.jobs == 0 && s.workers == map[] && s.threshold >= 1
  }

  // ---------------------------------------------------------------------
  // What the log proves
  // ---------------------------------------------------------------------

  /** Entry `d` is an approval that completes the quorum of its tier. */
  ghost predicate QuorumAt(tier: Tier, log: seq<Entry>, d: nat)
    requires d < |log|
  {
    && log[d].Approval?
    && match tier
       case Auto => log[d].user == SYSTEM
       case Tier2 => true
       case Tier3 => CountApprovals(log[..d]) >= 1 && (log[d].role == Management || !Decided(log[..d], log[d].user))
       case Tier4 => CountApprovals(log[..d]) >= 1 && log[d].role == Management && DistinctApprovers(log[..d + 1])
  }

  ghost predicate DistinctApprovers(log: seq<Entry>) {
    forall i, j :: 0 <= i < j < |log| && log[i].Approval? && log[j].Approval? ==> log[i].user != log[j].user
  }

  function RejectionsSinceReset(log: seq<Entry>): nat {
    if log == [] then 0
    else
      match log[|log| - 1]
      case Reset => 0
      case Rejection(_) => RejectionsSinceReset(log[..|log| - 1]) + 1
      case Approval(_, _) => RejectionsSinceReset(log[..|log| - 1])
  }

  /** Entry `d` is a rejection that decides: any one, except that tier 3 needs `threshold` since the last reset. */
  ghost predicate RejectionAt(tier: Tier, threshold: nat, log: seq<Entry>, d: nat)
    requires d < |log|
  {
    log[d].Rejection? && (tier == Tier3 ==> RejectionsSinceReset(log[..d + 1]) >= threshold)
  }

  ghost predicate HasQuorum(tier: Tier, log: seq<Entry>) {
    exists d: nat :: d < |log| && QuorumAt(tier, log, d)
  }

  ghost predicate HasRejection(tier: Tier, threshold: nat, log: seq<Entry>) {
    exists d: nat :: d < |log| && RejectionAt(tier, threshold, log, d)
  }

  lemma EvidenceGrows(tier: Tier, threshold: nat, log: seq<Entry>, e: Entry)
    ensures HasQuorum(tier, log) ==> HasQuorum(tier, log + [e])
    ensures HasRejection(tier, threshold, log) ==> HasRejection(tier, threshold, log + [e])
  {
    if HasQuorum(tier, log) {
      var d: nat :| d < |log| && QuorumAt(tier, log, d);
      assert (log + [e])[..d] == log[..d] && (log + [e])[..d + 1] == log[..d + 1];
      assert QuorumAt(tier, log + [e], d);
    }
    if HasRejection(tier, threshold, log) {
      var d: nat :| d < |log| && RejectionAt(tier, threshold, log, d);
      assert (log + [e])[..d + 1] == log[..d + 1];
      assert RejectionAt(tier, threshold, log + [e], d);
    }
  }

  /** New evidence can only be the new entry. */
  lemma EvidenceIsOldOrNew(tier: Tier, threshold: nat, log: seq<Entry>, e: Entry)
    ensures HasQuorum(tier, log + [e]) ==> HasQuorum(tier, log) || QuorumAt(tier, log + [e], |log|)
    ensures HasRejection(tier, threshold, log + [e]) ==>
              HasRejection(tier, threshold, log) || RejectionAt(tier, threshold, log + [e], |log|)
  {
    var longer := log + [e];
    if HasQuorum(tier, longer) && !QuorumAt(tier, longer, |log|) {
      var d: nat :| d < |longer| && QuorumAt(tier, longer, d);
      assert longer[..d] == log[..d] && longer[..d + 1] == log[..d + 1];
      assert QuorumAt(tier, log, d);
    }
    if HasRejection(tier, threshold, longer) && !RejectionAt(tier, threshold, longer, |log|) {
      var d: nat :| d < |longer| && RejectionAt(tier, threshold, longer, d);
      assert longer[..d + 1] == log[..d + 1];
      assert RejectionAt(tier, threshold, log, d);
    }
  }

  // ---------------------------------------------------------------------
  // The invariant
  // ---------------------------------------------------------------------

  /** Nothing in the log or the pricing columns decides the invoice. */
  ghost predicate Undecided(tier: Tier, threshold: nat, row: Row) {
    !HasQuorum(tier, row.log) && !HasRejection(tier, threshold, row.log) && !row.pricingRejected
  }

  ghost predicate RowOk(s: State, row: Row) {
    && (row.status == Priced || Granted(row.status) || row.status == Rejected)
    && (Granted(row.status) ==> HasQuorum(s.tier, row.log) && (s.queueConfigured ==> s.jobs >= 1))
    && (row.status == Rejected ==> HasRejection(s.tier, s.threshold, row.log) || row.pricingRejected)
    && (s.tier == Tier4 ==> DistinctApprovers(row.log))
    && (s.tier == Tier3 ==> row.rejections == RejectionsSinceReset(row.log))
    && (s.tier == Tier3 && row.status == Priced ==> row.rejections < s.threshold)
    && (row.status == Priced ==> Undecided(s.tier, s.threshold, row))
  }

  predicate Holding(p: Phase) {
    p.Locked? || p.Looked? || p.Enqueued?
  }

  /** The lock holder's look at the approvals stays current, because inserting one needs the lock. */
  ghost predicate PhaseOk(s: State, w: WorkerId, p: Phase) {
    && (Holding(p) ==> s.lock == Some(w))
    && (p.Looked? || p.Enqueued? ==>
        p.req.Approve? && p.existing == s.row.log && OfficerAllowed(s.tier, p.req.user, p.req.role, s.row.log))
    && (p.Enqueued? ==> QuorumReached(s.tier, p.req.role, p.existing) && (s.queueConfigured ==> s.jobs >= 1))
  }

  ghost predicate Inv(s: State) {
    s.threshold >= 1 && RowOk(s, s.row) && forall w :: w in s.workers ==> PhaseOk(s, w, s.workers[w])
  }

  lemma ApprovalKeeps(s: State, user: UserId, role: Role)
    requires RowOk(s, s.row) && OfficerAllowed(s.tier, user, role, s.row.log)
    requires QuorumReached(s.tier, role, s.row.log) && s.queueConfigured ==> s.jobs >= 1
    ensures RowOk(s, CommitApproval(s.tier, s.row, user, role, s.row.log))
  {
    var e, log := ApprovalEntry(s.tier, user, role), s.row.log;
    EvidenceGrows(s.tier, s.threshold, log, e);
    EvidenceIsOldOrNew(s.tier, s.threshold, log, e);
    assert (log + [e])[..|log|] == log && (log + [e])[..|log| + 1] == log + [e];
    if QuorumReached(s.tier, role, log) {
      assert QuorumAt(s.tier, log + [e], |log|);
    }
  }

  lemma RejectionKeeps(s: State, user: UserId)
    requires RowOk(s, s.row)
    ensures RowOk(s, CommitRejection(s.tier, s.threshold, s.row, user))
  {
    var e, log := Rejection(user), s.row.log;
    EvidenceGrows(s.tier, s.threshold, log, e);
    EvidenceIsOldOrNew(s.tier, s.threshold, log, e);
    assert (log + [e])[..|log|] == log && (log + [e])[..|log| + 1] == log + [e];
    if s.tier != Tier3 || s.row.rejections + 1 >= s.threshold {
      assert RejectionAt(s.tier, s.threshold, log + [e], |log|);
    }
  }

  lemma ResetKeeps(s: State)
    requires RowOk(s, s.row) && s.threshold >= 1
    ensures RowOk(s, CommitReset(s.row))
  {
    EvidenceGrows(s.tier, s.threshold, s.row.log, Reset);
    EvidenceIsOldOrNew(s.tier, s.threshold, s.row.log, Reset);
  }

  /** The holder commits a sound row and lets go; nobody else was holding anything. */
  lemma HandOver(s: State, w: WorkerId, row: Row)
    requires Inv(s) && Holding(PhaseOf(s, w)) && RowOk(s, row)
    ensures Inv(Release(s, w).(row := row))
  {
    assert PhaseOk(s, w, s.workers[w]);
  }

  lemma CommitKeeps(s: State, w: WorkerId)
    requires Inv(s)
    ensures Inv(Next(s, Commit(w)))
  {
    var p := PhaseOf(s, w);
    if p.Locked? && p.req.Reject? {
      RejectionKeeps(s, p.req.user);
      HandOver(s, w, if Recordable(s) then CommitRejection(s.tier, s.threshold, s.row, p.req.user) else s.row);
    } else if p.Looked? || p.Enqueued? {
      assert PhaseOk(s, w, p);
      if p.Enqueued? <==> QuorumReached(s.tier, p.req.role, p.existing) {
        ApprovalKeeps(s, p.req.user, p.req.role);
        HandOver(s, w, CommitApproval(s.tier, s.row, p.req.user, p.req.role, p.existing));
      }
    }
  }

  lemma LookKeeps(s: State, w: WorkerId)
    requires Inv(s)
    ensures Inv(Next(s, Look(w)))
  {
  }

  lemma EnqueueKeeps(s: State, w: WorkerId)
    requires Inv(s)
    ensures Inv(Next(s, Enqueue(w)))
  {
  }

  /** An update that waited for the lock finds nobody holding anything. */
  lemma UnlockedKeeps(s: State, row: Row)
    requires Inv(s) && s.lock.None? && RowOk(s, row)
    ensures Inv(s.(row := row))
  {
    var s' := s.(row := row);
    forall w | w in s'.workers ensures PhaseOk(s', w, s'.workers[w]) {
      assert PhaseOk(s, w, s.workers[w]);
    }
  }

  lemma StepKeeps(s: State, a: Action)
    requires Inv(s)
    ensures Inv(Next(s, a))
  {
    match a
    case Commit(w) => CommitKeeps(s, w);
    case Look(w) => LookKeeps(s, w);
    case Enqueue(w) => EnqueueKeeps(s, w);
    case ResetCount =>
      if s.lock.None? {
        ResetKeeps(s);
        UnlockedKeeps(s, CommitReset(s.row));
      }
    case RejectPricing =>
      if s.lock.None? {
        UnlockedKeeps(s, CommitPricingRejection(s.row));
      }
    case Onward(to) =>
      if s.lock.None? && Granted(s.row.status) && Granted(to) {
        UnlockedKeeps(s, s.row.(status := to));
      }
    case _ =>
  }

  ghost predicate SameSetting(s: State, s': State) {
    s'.tier == s.tier && s'.threshold == s.threshold && s'.queueConfigured == s.queueConfigured
      && s'.recordsTier4 == s.recordsTier4
  }

  /** A decision taken is kept: rejected stays, and what was granted is never priced or rejected again. */
  ghost predicate Kept(was: InvoiceStatus, becomes: InvoiceStatus) {
    (was == Rejected ==> becomes == Rejected) && (Granted(was) ==> Granted(becomes))
  }

  /** Configuration never changes, and a decision never does either. */
  lemma StepIsFinal(s: State, a: Action)
    requires Inv(s)
    ensures SameSetting(s, Next(s, a)) && Kept(s.row.status, Next(s, a).row.status)
  {
  }

  lemma {:induction false} RunKeeps(s: State, actions: seq<Action>)
    requires Inv(s)
    ensures Inv(Run(s, actions))
    ensures SameSetting(s, Run(s, actions)) && Kept(s.row.status, Run(s, actions).row.status)
    decreases |actions|
  {
    if actions != [] {
      StepKeeps(s, actions[0]);
      StepIsFinal(s, actions[0]);
      RunKeeps(Next(s, actions[0]), actions[1..]);
    }
  }

  // ---------------------------------------------------------------------
  // The guarantees
  // ---------------------------------------------------------------------

  /** Under every interleaving and failure: an invoice approved, or moved on from there, has its tier's
      quorum committed and, when the queue is configured, a payment job enqueued; a rejected one has its
      deciding rejection or was turned down by its supplier; one still priced has neither quorum nor
      deciding rejection, and was not turned down; no other status arises. */
  lemma DecisionIsBacked(s0: State, actions: seq<Action>)
    requires Initial(s0)
    ensures var s := Run(s0, actions);
            && (s.row.status == Priced || Granted(s.row.status) || s.row.status == Rejected)
            && (Granted(s.row.status) ==> HasQuorum(s0.tier, s.row.log) && (s0.queueConfigured ==> s.jobs >= 1))
            && (s.row.status == Rejected ==> HasRejection(s0.tier, s0.threshold, s.row.log) || s.row.pricingRejected)
            && (s.row.status == Priced ==>
                  && !HasQuorum(s0.tier, s.row.log) && !HasRejection(s0.tier, s0.threshold, s.row.log)
                  && !s.row.pricingRejected)
  {
    RunKeeps(s0, actions);
  }

  /** Decisions are final and exclusive: no later step of any run turns a rejected invoice into anything
      else, or one that was approved back into a priced or a rejected one. */
  lemma DecisionIsFinal(s0: State, before: seq<Action>, after: seq<Action>)
    requires Initial(s0)
    ensures var s, s' := Run(s0, before), Run(Run(s0, before), after);
            && (s.row.status == Rejected ==> s'.row.status == Rejected)
            && (Granted(s.row.status) ==> Granted(s'.row.status))
  {
    RunKeeps(s0, before);
    RunKeeps(Run(s0, before), after);
  }

  /** The tier-3 counter is the number of rejections since the last reset, and stays below the
      threshold for as long as the invoice is priced. */
  lemma PricedBelowThreshold(s0: State, actions: seq<Action>)
    requires Initial(s0) && s0.tier == Tier3
    ensures var row := Run(s0, actions).row;
            row.rejections == RejectionsSinceReset(row.log) && (row.status == Priced ==> row.rejections < s0.threshold)
  {
    RunKeeps(s0, actions);
  }

  // ---------------------------------------------------------------------
  // Payment jobs
  // ---------------------------------------------------------------------

  /** One job is due for an approval that is committed, or enqueued under the lock on a priced invoice. */
  ghost function Due(s: State): nat {
    if Granted(s.row.status) || (s.lock.Some? && PhaseOf(s, s.lock.value).Enqueued? && s.row.status == Priced)
    then 1 else 0
  }

  /** A job is lost by enqueueing it for an invoice no longer priced, or by rolling back after it. */
  ghost function LostNow(s: State, a: Action): nat {
    match a
    case Enqueue(w) =>
      var p := PhaseOf(s, w);
      if p.Looked? && p.req.Approve? && QuorumReached(s.tier, p.req.role, p.existing) && s.row.status != Priced
        then 1 else 0
    case Rollback(w) => if PhaseOf(s, w).Enqueued? && s.row.status == Priced then 1 else 0
    case _ => 0
  }

  ghost function Lost(s: State, actions: seq<Action>): nat
    decreases |actions|
  {
    if actions == [] then 0 else LostNow(s, actions[0]) + Lost(Next(s, actions[0]), actions[1..])
  }

  lemma StepAccounts(s: State, a: Action)
    requires Inv(s) && s.queueConfigured
    ensures Next(s, a).jobs + Due(s) == s.jobs + Due(Next(s, a)) + LostNow(s, a)
  {
    if a.Lock? || a.Look? || a.Enqueue? || a.Commit? || a.Rollback? || a.Validate? {
      assert a.worker in s.workers ==> PhaseOk(s, a.worker, s.workers[a.worker]);
    }
  }

  lemma {:induction false} RunAccounts(s: State, actions: seq<Action>)
    requires Inv(s) && s.queueConfigured
    ensures Run(s, actions).jobs + Due(s) == s.jobs + Due(Run(s, actions)) + Lost(s, actions)
    decreases |actions|
  {
    if actions != [] {
      StepAccounts(s, actions[0]);
      StepKeeps(s, actions[0]);
      StepIsFinal(s, actions[0]);
      RunAccounts(Next(s, actions[0]), actions[1..]);
    }
  }

  lemma {:induction false} NoQueueNoJobs(s: State, actions: seq<Action>)
    requires !s.queueConfigured
    ensures Run(s, actions).jobs == s.jobs
    decreases |actions|
  {
    if actions != [] {
      NoQueueNoJobs(Next(s, actions[0]), actions[1..]);
    }
  }

  /** Every payment job of every run: one for the approval, and one for each enqueue on an invoice no
      longer priced and each rollback after an enqueue. */
  lemma JobsAccounted(s0: State, actions: seq<Action>)
    requires Initial(s0)
    ensures var s := Run(s0, actions); s.jobs == if s0.queueConfigured then Due(s) + Lost(s0, actions) else 0
  {
    if s0.queueConfigured {
      RunAccounts(s0, actions);
    } else {
      NoQueueNoJobs(s0, actions);
    }
  }

  /** So once nobody holds the lock there is one job for an approved invoice and none for any other,
      exactly when the run never enqueued for a decided invoice nor rolled back after enqueueing. */
  lemma OneJobPerApprovalIff(s0: State, actions: seq<Action>)
    requires Initial(s0) && s0.queueConfigured && Run(s0, actions).lock.None?
    ensures var s := Run(s0, actions);
            s.jobs == (if Granted(s.row.status) then 1 else 0) <==> Lost(s0, actions) == 0
  {
    JobsAccounted(s0, actions);
  }

  // ---------------------------------------------------------------------
  // Where the database refuses TIER_4 records
  // ---------------------------------------------------------------------

  ghost predicate Unrecorded(s: State) {
    && (forall i :: 0 <= i < |s.row.log| ==> s.row.log[i].Reset?) && s.jobs == 0
    && (s.row.status == Priced || (s.row.status == Rejected && s.row.pricingRejected))
    && (forall w :: w in s.workers ==> !s.workers[w].Looked? && !s.workers[w].Enqueued?)
  }

  lemma {:induction false} StaysUnrecorded(s: State, actions: seq<Action>)
    requires s.tier == Tier4 && !s.recordsTier4 && Unrecorded(s)
    ensures Unrecorded(Run(s, actions))
    decreases |actions|
  {
    if actions != [] {
      UnrecordedStep(s, actions[0]);
      StaysUnrecorded(Next(s, actions[0]), actions[1..]);
    }
  }

  lemma UnrecordedStep(s: State, a: Action)
    requires s.tier == Tier4 && !s.recordsTier4 && Unrecorded(s)
    ensures Unrecorded(Next(s, a)) && Next(s, a).tier == Tier4 && !Next(s, a).recordsTier4
  {
  }

  /** While a CHECK constraint refuses TIER_4, no run records a decision on such an invoice or pays for
      it: it stays priced unless its supplier turns it down. */
  lemma Tier4NeedsItsRecords(s0: State, actions: seq<Action>)
    requires Initial(s0) && s0.tier == Tier4 && !s0.recordsTier4
    ensures var s := Run(s0, actions);
            && (forall i :: 0 <= i < |s.row.log| ==> s.row.log[i].Reset?) && s.jobs == 0
            && (s.row.status == Priced || (s.row.status == Rejected && s.row.pricingRejected))
  {
    StaysUnrecorded(s0, actions);
  }

  // ---------------------------------------------------------------------
  // What the protocol does not promise
  // ---------------------------------------------------------------------

  lemma {:induction false} RunAppend(s: State, actions: seq<Action>, a: Action)
    ensures Run(s, actions + [a]) == Next(Run(s, actions), a)
    decreases |actions|
  {
    if actions == [] {
      assert actions + [a] == [a] && [a][1..] == [];
      assert Run(Next(s, a), []) == Next(s, a);
    } else {
      assert (actions + [a])[1..] == actions[1..] + [a];
      RunAppend(Next(s, actions[0]), actions[1..], a);
    }
  }

  lemma RunThree(s: State, actions: seq<Action>, a: Action, b: Action, c: Action) returns (longer: seq<Action>)
    ensures Run(s, longer) == Next(Next(Next(Run(s, actions), a), b), c)
  {
    RunAppend(s, actions, a);
    RunAppend(s, actions + [a], b);
    RunAppend(s, actions + [a] + [b], c);
    longer := actions + [a] + [b] + [c];
  }

  /** Once rejected, an approver who had already passed the status check still enqueues a payment job. */
  lemma StaleApproverEnqueues(s: State, w: WorkerId, user: UserId, role: Role)
    requires s.tier == Tier2 && s.queueConfigured && s.row.status == Rejected && s.lock.None?
    requires PhaseOf(s, w) == Validated(Approve(user, role))
    ensures var s' := Next(Next(Next(s, Lock(w)), Look(w)), Enqueue(w));
            s'.row.status == Rejected && s'.jobs == s.jobs + 1
  {
  }

  lemma RejecterGoesFirst(s: State, w: WorkerId, v: WorkerId, user: UserId)
    requires s.tier == Tier2 && s.row.status == Priced && s.lock.None? && w != v && PhaseOf(s, v).Idle?
    ensures var s' := Next(Next(Next(s, Validate(v, Reject(user))), Lock(v)), Commit(v));
            s'.row.status == Rejected && s'.lock.None? && PhaseOf(s', w) == PhaseOf(s, w)
            && s'.tier == s.tier && s'.queueConfigured == s.queueConfigured && s'.jobs == s.jobs
  {
  }

  /** So a run can end with a rejected invoice and a payment job for it. */
  lemma StaleApproverPaysRejectedInvoice(s0: State)
    requires Initial(s0) && s0.tier == Tier2 && s0.queueConfigured
    ensures exists actions: seq<Action> :: Run(s0, actions).row.status == Rejected && Run(s0, actions).jobs == 1
  {
    var a0 := [] + [Validate(1, Approve(11, CreditOfficer))];
    RunAppend(s0, [], Validate(1, Approve(11, CreditOfficer)));
    var a1 := RunThree(s0, a0, Validate(2, Reject(12)), Lock(2), Commit(2));
    RejecterGoesFirst(Run(s0, a0), 1, 2, 12);
    var a2 := RunThree(s0, a1, Lock(1), Look(1), Enqueue(1));
    StaleApproverEnqueues(Run(s0, a1), 1, 11, CreditOfficer);
    assert Run(s0, a2).jobs == 1;
  }

  /** An approver's own four steps, on an invoice it saw priced. */
  lemma ApproverFinishes(s: State, w: WorkerId, user: UserId, role: Role)
    requires s.tier == Tier2 && s.queueConfigured && s.lock.None? && PhaseOf(s, w) == Validated(Approve(user, role))
    ensures var s' := Next(Next(Next(Next(s, Lock(w)), Look(w)), Enqueue(w)), Commit(w));
            && s'.row.status == Swap(s.row.status, Approved, Priced) && s'.jobs == s.jobs + 1
            && s'.lock.None? && s'.tier == s.tier && s'.queueConfigured == s.queueConfigured
            && forall v: WorkerId :: v != w ==> PhaseOf(s', v) == PhaseOf(s, v)
  {
  }

  lemma RunFour(
    s: State, actions: seq<Action>, a: Action, b: Action, c: Action, d: Action) returns (longer: seq<Action>)
    ensures Run(s, longer) == Next(Next(Next(Next(Run(s, actions), a), b), c), d)
  {
    var three := RunThree(s, actions, a, b, c);
    RunAppend(s, three, d);
    longer := three + [d];
  }

  /** Two approvers who both saw the invoice priced enqueue two payment jobs for it. */
  lemma TwoApproversPayTwice(s0: State)
    requires Initial(s0) && s0.tier == Tier2 && s0.queueConfigured
    ensures exists actions: seq<Action> :: Run(s0, actions).row.status == Approved && Run(s0, actions).jobs == 2
  {
    var req1, req2 := Approve(11, CreditOfficer), Approve(12, CreditOfficer);
    RunAppend(s0, [], Validate(1, req1));
    RunAppend(s0, [] + [Validate(1, req1)], Validate(2, req2));
    var both := [] + [Validate(1, req1)] + [Validate(2, req2)];
    var one := RunFour(s0, both, Lock(2), Look(2), Enqueue(2), Commit(2));
    ApproverFinishes(Run(s0, both), 2, 12, CreditOfficer);
    var two := RunFour(s0, one, Lock(1), Look(1), Enqueue(1), Commit(1));
    ApproverFinishes(Run(s0, one), 1, 11, CreditOfficer);
    assert Run(s0, two).jobs == 2;
  }

  // ---------------------------------------------------------------------
  // Who may sign, and that signing completes
  // ---------------------------------------------------------------------

  /** The user already has a record, approving or rejecting, on the invoice. */
  ghost predicate OnRecord(log: seq<Entry>, user: UserId) {
    exists i :: 0 <= i < |log| && (log[i].Approval? || log[i].Rejection?) && log[i].user == user
  }

  /** The look under the lock turns an approver away exactly when: in tier 3, the user is not management
      and already on record; in tier 4, the user is on record, or neither management nor credit officer,
      or the record itself is refused; in the other tiers never. */
  lemma TurnedAwayIff(s: State, w: WorkerId, user: UserId, role: Role)
    requires PhaseOf(s, w) == Locked(Approve(user, role))
    ensures var away := PhaseOf(Next(s, Look(w)), w).Idle?;
            match s.tier
            case Auto => !away
            case Tier2 => !away
            case Tier3 => away <==> role != Management && OnRecord(s.row.log, user)
            case Tier4 => away <==> OnRecord(s.row.log, user) || role == OtherRole || !s.recordsTier4
    ensures var p := PhaseOf(Next(s, Look(w)), w); p.Idle? || p == Looked(Approve(user, role), s.row.log)
  {
    assert OnRecord(s.row.log, user) <==> Decided(s.row.log, user);
  }

  /** Nobody holds the lock, and worker 1 is free. */
  predicate Ready(s: State) {
    s.lock.None? && PhaseOf(s, 1).Idle? && s.row.status == Priced
  }

  /** Worker 1 signs: the record is appended, and nothing else in the log. */
  lemma Signs(s: State, user: UserId, role: Role) returns (actions: seq<Action>)
    requires Ready(s) && OfficerAllowed(s.tier, user, role, s.row.log) && Recordable(s)
    ensures var s' := Run(s, actions);
            && s'.row == CommitApproval(s.tier, s.row, user, role, s.row.log)
            && SameSetting(s, s') && s'.lock.None? && PhaseOf(s', 1).Idle?
  {
    var req := Approve(user, role);
    if QuorumReached(s.tier, role, s.row.log) {
      var four := RunFour(s, [], Validate(1, req), Lock(1), Look(1), Enqueue(1));
      FourSteps(s, req);
      RunAppend(s, four, Commit(1));
      actions := four + [Commit(1)];
    } else {
      var three := RunThree(s, [], Validate(1, req), Lock(1), Look(1));
      ThreeSteps(s, req);
      RunAppend(s, three, Commit(1));
      actions := three + [Commit(1)];
    }
  }

  lemma ThreeSteps(s: State, req: Request)
    requires Ready(s) && req.Approve? && OfficerAllowed(s.tier, req.user, req.role, s.row.log) && Recordable(s)
    ensures var s' := Next(Next(Next(s, Validate(1, req)), Lock(1)), Look(1));
            PhaseOf(s', 1) == Looked(req, s.row.log) && s'.row == s.row && s'.lock == Some(1) && SameSetting(s, s')
  {
  }

  lemma FourSteps(s: State, req: Request)
    requires Ready(s) && req.Approve? && OfficerAllowed(s.tier, req.user, req.role, s.row.log) && Recordable(s)
    requires QuorumReached(s.tier, req.role, s.row.log)
    ensures var s' := Next(Next(Next(Next(s, Validate(1, req)), Lock(1)), Look(1)), Enqueue(1));
            PhaseOf(s', 1) == Enqueued(req, s.row.log) && s'.row == s.row && s'.lock == Some(1) && SameSetting(s, s')
  {
    ThreeSteps(s, req);
  }

  lemma {:induction false} RunConcat(s: State, a: seq<Action>, b: seq<Action>)
    ensures Run(s, a + b) == Run(Run(s, a), b)
    decreases |a|
  {
    if a == [] {
      assert a + b == b;
    } else {
      assert (a + b)[1..] == a[1..] + b;
      RunConcat(Next(s, a[0]), a[1..], b);
    }
  }

  /** In the first two tiers any one user, in any role, has a run that approves the invoice. */
  lemma OneSignatureCompletes(s0: State, user: UserId, role: Role)
    requires Initial(s0) && (s0.tier == Auto || s0.tier == Tier2)
    ensures exists actions: seq<Action> :: Run(s0, actions).row.status == Approved
  {
    var actions := Signs(s0, user, role);
  }

  lemma SignTwice(s0: State, user: UserId, role: Role, user2: UserId, role2: Role) returns (actions: seq<Action>)
    requires Initial(s0) && Recordable(s0) && (s0.tier == Tier3 || s0.tier == Tier4)
    requires OfficerAllowed(s0.tier, user, role, []) && OfficerAllowed(s0.tier, user2, role2, [Approval(user, role)])
    requires s0.tier == Tier4 ==> role2 == Management
    ensures Run(s0, actions).row == Row(Approved, [Approval(user, role), Approval(user2, role2)], 0, false)
  {
    var first := Signs(s0, user, role);
    var s1 := Run(s0, first);
    assert s1.row == Row(Priced, [Approval(user, role)], 0, false);
    var one := [Approval(user, role)];
    assert one[..0] == [] && CountApprovals(one) == 1;
    var second := Signs(s1, user2, role2);
    RunConcat(s0, first, second);
    actions := first + second;
    assert [Approval(user, role)] + [Approval(user2, role2)] == [Approval(user, role), Approval(user2, role2)];
  }

  /** In tier 3 any two different users, whatever their roles, have a run that approves the invoice. */
  lemma TwoUsersCompleteTier3(s0: State, user: UserId, role: Role, user2: UserId, role2: Role)
    requires Initial(s0) && s0.tier == Tier3 && user != user2
    ensures exists actions: seq<Action> ::
              Run(s0, actions).row == Row(Approved, [Approval(user, role), Approval(user2, role2)], 0, false)
  {
    var actions := SignTwice(s0, user, role, user2, role2);
  }

  /** In tier 3 one management user may supply both signatures. */
  lemma OneManagerCompletesTier3(s0: State, user: UserId)
    requires Initial(s0) && s0.tier == Tier3
    ensures exists actions: seq<Action> ::
              Run(s0, actions).row == Row(Approved, [Approval(user, Management), Approval(user, Management)], 0, false)
  {
    var actions := SignTwice(s0, user, Management, user, Management);
  }

  /** In tier 4, where its records are accepted, a credit officer or manager followed by another user who is
      management have a run that approves the invoice. */
  lemma ManagerCompletesTier4(s0: State, user: UserId, role: Role, manager: UserId)
    requires Initial(s0) && s0.tier == Tier4 && s0.recordsTier4 && user != manager && role != OtherRole
    ensures exists actions: seq<Action> ::
              Run(s0, actions).row == Row(Approved, [Approval(user, role), Approval(manager, Management)], 0, false)
  {
    var actions := SignTwice(s0, user, role, manager, Management);
  }

  lemma LeavingIdle(s: State, a: Action, w: WorkerId)
    requires PhaseOf(s, w).Idle? && !PhaseOf(Next(s, a), w).Idle?
    ensures s.row.status == Priced
  {
  }

  /** Whoever is past the first check once saw the invoice priced. */
  lemma {:induction false} ValidatedSawPriced(s0: State, actions: seq<Action>, w: WorkerId)
    requires s0.workers == map[] && !PhaseOf(Run(s0, actions), w).Idle?
    ensures exists k: nat :: k <= |actions| && Run(s0, actions[..k]).row.status == Priced
    decreases |actions|
  {
    if actions != [] {
      var n := |actions| - 1;
      var front := actions[..n];
      RunAppend(s0, front, actions[n]);
      assert front + [actions[n]] == actions;
      if PhaseOf(Run(s0, front), w).Idle? {
        LeavingIdle(Run(s0, front), actions[n], w);
        assert Run(s0, actions[..n]).row.status == Priced;
      } else {
        ValidatedSawPriced(s0, front, w);
        var k: nat :| k <= n && Run(s0, front[..k]).row.status == Priced;
        assert front[..k] == actions[..k];
      }
    }
  }

  // ---------------------------------------------------------------------
  // The service, one call at a time
  // ---------------------------------------------------------------------

  datatype Outcome = WrongStatus | SameOfficerOrRole | RolledBack | Recorded(quorum: bool) | Rejecting

  /** The invoice row, its approval records and the payment queue, changed in place. */
  class ApprovalDesk {
    const tier: Tier
    const threshold: nat
    const queueConfigured: bool
    const recordsTier4: bool
    var status: InvoiceStatus
    var log: seq<Entry>
    var rejections: nat
    var pricingRejected: bool
    var jobs: nat

    constructor (tier: Tier, threshold: nat, queueConfigured: bool, recordsTier4: bool)
      ensures View() == Row(Priced, [], 0, false) && jobs == 0
      ensures this.tier == tier && this.threshold == threshold
      ensures this.queueConfigured == queueConfigured && this.recordsTier4 == recordsTier4
    {
      this.tier, this.threshold, this.queueConfigured, this.recordsTier4 :=
        tier, threshold, queueConfigured, recordsTier4;
      status, log, rejections, pricingRejected, jobs := Priced, [], 0, false, 0;
    }

    function View(): Row
      reads this
    {
      Row(status, log, rejections, pricingRejected)
    }

    method UpdateInvoiceStatus(to: InvoiceStatus, from: InvoiceStatus)
      modifies this`status
      ensures status == Swap(old(status), to, from)
    {
      if status == from {
        status := to;
      }
    }

    method CountExisting(existing: seq<Entry>) returns (n: nat)
      ensures n == CountApprovals(existing)
    {
      n := 0;
      for i := 0 to |existing|
        invariant n == CountApprovals(existing[..i])
      {
        assert existing[..i + 1][..i] == existing[..i];
        if existing[i].Approval? {
          n := n + 1;
        }
      }
      assert existing[..|existing|] == existing;
    }

    method ExecuteApproval(user: UserId, role: Role) returns (r: Outcome)
      modifies this
      ensures r == WrongStatus <==> old(status) != Priced
      ensures r == SameOfficerOrRole <==> old(status) == Priced && !OfficerAllowed(tier, user, role, old(log))
      ensures old(status) == Priced && tier == Tier3 ==>
          (r == SameOfficerOrRole <==> role != Management && OnRecord(old(log), user))
      ensures old(status) == Priced && tier == Tier4 ==>
          (r == SameOfficerOrRole <==> OnRecord(old(log), user) || role == OtherRole)
      ensures r == RolledBack ==> tier == Tier4 && !recordsTier4
      ensures !r.Recorded? ==> View() == old(View()) && jobs == old(jobs)
      ensures r.Recorded? ==>
                && View() == CommitApproval(tier, old(View()), user, role, old(log))
                && (tier == Tier4 ==> recordsTier4) && r.quorum == QuorumReached(tier, role, old(log))
                && (status == Approved <==> r.quorum)
                && jobs == old(jobs) + if r.quorum && queueConfigured then 1 else 0
      ensures r != Rejecting
    {
      if status != Priced { return WrongStatus; }
      var existing := log;
      assert OnRecord(log, user) <==> Decided(log, user);
      if !OfficerAllowed(tier, user, role, existing) { return SameOfficerOrRole; }
      if tier == Tier4 && !recordsTier4 { return RolledBack; }
      log := log + [ApprovalEntry(tier, user, role)];
      var n := CountExisting(existing);
      var quorum := match tier
        case Tier3 => n + 1 >= 2
        case Tier4 => n + 1 >= 2 && role == Management
        case _ => true;
      if quorum {
        UpdateInvoiceStatus(Approved, Priced);
        if queueConfigured {
          jobs := jobs + 1;
        }
      }
      r := Recorded(quorum);
    }

    method ExecuteRejection(user: UserId) returns (r: Outcome)
      modifies this
      ensures r == WrongStatus <==> old(status) != Priced
      ensures r == RolledBack <==> old(status) == Priced && tier == Tier4 && !recordsTier4
      ensures r == Rejecting || r == WrongStatus || r == RolledBack
      ensures View() == if r == Rejecting then CommitRejection(tier, threshold, old(View()), user) else old(View())
      ensures jobs == old(jobs)
    {
      if status != Priced { return WrongStatus; }
      if tier == Tier4 && !recordsTier4 { return RolledBack; }
      log := log + [Rejection(user)];
      if tier == Tier3 {
        rejections := rejections + 1;
        if rejections >= threshold {
          UpdateInvoiceStatus(Rejected, Priced);
        }
      } else {
        UpdateInvoiceStatus(Rejected, Priced);
      }
      r := Rejecting;
    }

    method ResetTier3RejectionCount()
      modifies this
      ensures View() == CommitReset(old(View())) && jobs == old(jobs)
    {
      rejections := 0;
      log := log + [Reset];
    }

    /** The supplier's pricing rejection, whose swap may miss. */
    method PersistPricingRejection()
      modifies this
      ensures View() == CommitPricingRejection(old(View())) && jobs == old(jobs)
    {
      pricingRejected := true;
      UpdateInvoiceStatus(Rejected, Priced);
    }
  }
}
