/** The payment history of a collection: running balances in paid_at order. */
module CollectionsHistory {
  import opened CollectionsModel
  import opened CollectionsProofs

  /** SUM(amount) over the payments of `c` with paid_at <= t. */
  function SumUpTo(payments: seq<Payment>, c: CollectionId, t: int): int {
    if payments == [] then 0
    else
      var last := payments[|payments| - 1];
      SumUpTo(payments[..|payments| - 1], c, t) + if last.collection == c && last.paidAt <= t then last.amount else 0
  }

  function RunningBalance(face: nat, payments: seq<Payment>, c: CollectionId, t: int): int {
    face - SumUpTo(payments, c, t)
  }

  /** The rows of the history query: the payments of `c`, ordered by paid_at with ties in any order. */
  ghost predicate IsHistory(h: seq<Payment>, payments: seq<Payment>, c: CollectionId) {
    && (forall p :: p in h <==> p in payments && p.collection == c)
    && (forall i, j :: 0 <= i < j < |h| ==> h[i].paidAt <= h[j].paidAt)
  }

  lemma {:induction false} LaterSumsAreLarger(payments: seq<Payment>, c: CollectionId, t: int, u: int)
    requires t <= u && forall i :: 0 <= i < |payments| ==> payments[i].amount > 0
    ensures SumUpTo(payments, c, t) <= SumUpTo(payments, c, u)
  {
    if payments != [] {
      LaterSumsAreLarger(payments[..|payments| - 1], c, t, u);
    }
  }

  lemma {:induction false} SumUpToLast(payments: seq<Payment>, c: CollectionId, t: int)
    requires forall p :: p in payments && p.collection == c ==> p.paidAt <= t
    ensures SumUpTo(payments, c, t) == SumOf(payments, c)
  {
    if payments != [] {
      SumUpToLast(payments[..|payments| - 1], c, t);
      assert payments[|payments| - 1] in payments;
    }
  }

  /** After every run: balances never rise down the history, and while the invoice is unpaid the
      latest balance is the face value less total_collected. */
  lemma BalancesFallToOutstanding(s0: State, actions: seq<Action>, c: CollectionId, h: seq<Payment>)
    requires Initial(s0) && c < |Run(s0, actions).db.collections|
    requires IsHistory(h, Run(s0, actions).db.payments, c)
    ensures var db := Run(s0, actions).db; var row := db.collections[c];
            && (forall i, j :: 0 <= i < j < |h| ==>
                 RunningBalance(row.face, db.payments, c, h[i].paidAt)
                 >= RunningBalance(row.face, db.payments, c, h[j].paidAt))
            && (h != [] && PaidCount(db.audit, row.invoice) == 0 ==>
                 RunningBalance(row.face, db.payments, c, h[|h| - 1].paidAt) == row.face - row.totalCollected)
  {
    TotalIsSumOfPayments(s0, actions, c);
    var db := Run(s0, actions).db;
    forall i, j | 0 <= i < j < |h|
      ensures SumUpTo(db.payments, c, h[i].paidAt) <= SumUpTo(db.payments, c, h[j].paidAt)
    {
      LaterSumsAreLarger(db.payments, c, h[i].paidAt, h[j].paidAt);
    }
    if h != [] {
      forall p | p in db.payments && p.collection == c ensures p.paidAt <= h[|h| - 1].paidAt {
        assert p in h;
      }
      SumUpToLast(db.payments, c, h[|h| - 1].paidAt);
    }
  }
}
