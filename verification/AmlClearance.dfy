/** Write-once AML clearance of one invoice, under any number of compliance officers. */
module AmlClearance {
  import opened Common

  type OfficerId = string
  type WorkerId = nat

  /** The flag, the three clearance columns, and the officers named by AML_CLEARED audit rows. */
  datatype Row = Row(
    flagged: bool, clearedAt: Option<int>, clearedBy: Option<OfficerId>, reason: Option<string>, audit: seq<OfficerId>)

  predicate Eligible(row: Row) {
    row.flagged && row.clearedAt.None?
  }

  /** UPDATE ... WHERE aml_flagged AND aml_cleared_at IS NULL, then the audit row; a miss rolls back. */
  function ClearanceTxn(row: Row, officer: OfficerId, reason: string, now: int): Option<Row> {
    if Eligible(row)
    then Some(Row(row.flagged, Some(now), Some(officer), Some(reason), row.audit + [officer]))
    else None
  }

  datatype Phase = Idle | Checked(officer: OfficerId, reason: string)

  datatype State = State(row: Row, workers: map<WorkerId, Phase>)

  /** `SetFlag` is the invoice module, which may raise or drop the flag at any time. */
  datatype Action =
    | Check(worker: WorkerId, officer: OfficerId, reason: string)
    | Commit(worker: WorkerId, now: int)
    | Rollback(worker: WorkerId)
    | SetFlag(flag: bool)

  function PhaseOf(s: State, w: WorkerId): Phase {
    if w in s.workers then s.workers[w] else Idle
  }

  function Next(s: State, a: Action): State {
    match a
    case Check(w, officer, reason) =>
      if PhaseOf(s, w).Idle? && Eligible(s.row) then s.(workers := s.workers[w := Checked(officer, reason)]) else s
    case Commit(w, now) =>
      (match PhaseOf(s, w)
       case Idle => s
       case Checked(officer, reason) =>
         var row' := ClearanceTxn(s.row, officer, reason, now);
         State(if row'.Some? then row'.value else s.row, s.workers[w := Idle]))
    case Rollback(w) => s.(workers := s.workers[w := Idle])
    case SetFlag(flag) => s.(row := s.row.(flagged := flag))
  }

  function Run(s: State, actions: seq<Action>): State
    decreases |actions|
  {
    if actions == [] then s else Run(Next(s, actions[0]), actions[1..])
  }

  predicate Initial(s: State) {
    s.row.clearedAt.None? && s.row.clearedBy.None? && s.row.reason.None? && s.row.audit == [] && s.workers == map[]
  }

  /** All three columns or none, and one audit row naming the clearing officer exactly when cleared. */
  ghost predicate Coherent(row: Row) {
    if row.clearedAt.None? then row.clearedBy.None? && row.reason.None? && row.audit == []
    else row.clearedBy.Some? && row.reason.Some? && row.audit == [row.clearedBy.value]
  }

  lemma {:induction false} RunCoherent(s: State, actions: seq<Action>)
    requires Coherent(s.row)
    ensures var row := Run(s, actions).row;
            && Coherent(row)
            && (s.row.clearedAt.Some? ==>
                row.clearedAt == s.row.clearedAt && row.clearedBy == s.row.clearedBy && row.reason == s.row.reason)
    decreases |actions|
  {
    if actions != [] {
      RunCoherent(Next(s, actions[0]), actions[1..]);
    }
  }

  /** Clearance commits at most once however officers interleave: the three columns are set together,
      never change again, and exactly one audit row exists, naming the officer in the column. */
  lemma ClearedOnceForAll(s0: State, before: seq<Action>, after: seq<Action>)
    requires Initial(s0)
    ensures var row, row' := Run(s0, before).row, Run(Run(s0, before), after).row;
            && Coherent(row) && Coherent(row')
            && (row.clearedAt.Some? ==>
                 row'.clearedAt == row.clearedAt && row'.clearedBy == row.clearedBy && row'.reason == row.reason
                   && row'.audit == row.audit)
  {
    RunCoherent(s0, before);
    RunCoherent(Run(s0, before), after);
  }

  lemma {:induction false} RunAppend(s: State, actions: seq<Action>, a: Action)
    ensures Run(s, actions + [a]) == Next(Run(s, actions), a)
    decreases |actions|
  {
    if actions == [] {
      assert actions + [a] == [a] && [a][1..] == [];
      assert Run(Next(s, a), []) == Next(s, a);
    } else {
      assert (actions + [a])[1..] == actions[1..] + [a];
      RunAppend(Next(s, actions[0]), actions[1..], a);
    }
  }

  /** Action `k` is the commit, at the time in the column, of a worker that action `j` had let in as the
      officer and with the reason in the columns. */
  ghost predicate ClearedBy(row: Row, actions: seq<Action>, j: nat, k: nat)
    requires j < k < |actions|
  {
    && row.clearedAt.Some? && row.clearedBy.Some? && row.reason.Some?
    && actions[k].Commit? && actions[k].now == row.clearedAt.value
    && actions[j] == Check(actions[k].worker, row.clearedBy.value, row.reason.value)
  }

  /** A worker past its check was let in by one of the actions. */
  lemma {:induction false} CheckedBefore(s0: State, actions: seq<Action>, w: WorkerId) returns (j: nat)
    requires s0.workers == map[] && PhaseOf(Run(s0, actions), w).Checked?
    ensures var p := PhaseOf(Run(s0, actions), w); j < |actions| && actions[j] == Check(w, p.officer, p.reason)
    ensures Run(s0, actions[..j]).row.flagged && Run(s0, actions[..j]).row.clearedAt.None?
    decreases |actions|
  {
    var n := |actions| - 1;
    var front := actions[..n];
    RunAppend(s0, front, actions[n]);
    assert front + [actions[n]] == actions;
    if PhaseOf(Run(s0, front), w) == PhaseOf(Run(s0, actions), w) {
      j := CheckedBefore(s0, front, w);
      assert front[..j] == actions[..j];
    } else {
      j := n;
    }
  }

  /** The columns of a cleared invoice are those of the officer whose commit cleared it: the reason it gave
      at its check, and the time of the commit. */
  lemma {:induction false} ClearedByItsOfficer(s0: State, actions: seq<Action>)
    requires Initial(s0) && Run(s0, actions).row.clearedAt.Some?
    ensures exists j: nat, k: nat :: j < k < |actions| && ClearedBy(Run(s0, actions).row, actions, j, k)
    decreases |actions|
  {
    var n := |actions| - 1;
    var front, a := actions[..n], actions[n];
    RunAppend(s0, front, a);
    assert front + [a] == actions;
    var s := Run(s0, front);
    RunCoherent(s0, front);
    if s.row.clearedAt.Some? {
      ClearedByItsOfficer(s0, front);
      var j: nat, k: nat :| j < k < n && ClearedBy(s.row, front, j, k);
      assert ClearedBy(Run(s0, actions).row, actions, j, k);
    } else {
      var j := CheckedBefore(s0, front, a.worker);
      assert ClearedBy(Run(s0, actions).row, actions, j, n);
    }
  }

  /** A flagged invoice without clearance can be cleared by anyone who is let in. */
  lemma ClearanceRuns(s: State, w: WorkerId, officer: OfficerId, reason: string, now: int)
    requires PhaseOf(s, w).Idle? && s.row.flagged && s.row.clearedAt.None?
    ensures var s' := Next(Next(s, Check(w, officer, reason)), Commit(w, now));
            s'.row.clearedAt == Some(now) && s'.row.clearedBy == Some(officer) && s'.row.reason == Some(reason)
  {
  }

  datatype Outcome = NotFlagged | AlreadyCleared | Cleared

  /** The clearance service, one call at a time. */
  class ClearanceDesk {
    var flagged: bool
    var clearedAt: Option<int>
    var clearedBy: Option<OfficerId>
    var reason: Option<string>
    var audit: seq<OfficerId>

    constructor (flagged: bool)
      ensures View() == Row(flagged, None, None, None, [])
    {
      this.flagged, clearedAt, clearedBy, reason, audit := flagged, None, None, None, [];
    }

    function View(): Row
      reads this
    {
      Row(flagged, clearedAt, clearedBy, reason, audit)
    }

    method ClearInvoice(officer: OfficerId, why: string, now: int) returns (r: Outcome)
      modifies this
      ensures r == Cleared <==> Eligible(old(View()))
      ensures r == NotFlagged <==> !old(flagged)
      ensures r == AlreadyCleared <==> old(flagged) && old(clearedAt).Some?
      ensures if r == Cleared then ClearanceTxn(old(View()), officer, why, now) == Some(View())
          else View() == old(View())
    {
      if !flagged { return NotFlagged; }
      if clearedAt.Some? { return AlreadyCleared; }
      clearedAt, clearedBy, reason := Some(now), Some(officer), Some(why);
      audit := audit + [officer];
      r := Cleared;
    }
  }
}
