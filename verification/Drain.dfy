/** A measure that every claim strictly lowers and no other worker statement raises. */
module Drain {
  import opened Common
  import opened Store
  import opened Worker

  /** How often a row can still be claimed under a retry count. */
  function Claims(d: Delivery, retryCount: int): nat {
    if d.status == Pending then Max(1, retryCount + 1 - d.attempts) else 0
  }

  /** The sum over the first rows of the table. */
  function ClaimsBelow(ds: map<nat, Delivery>, retryCount: int, below: nat): nat {
    if below == 0 then 0
    else ClaimsBelow(ds, retryCount, below - 1) + if below - 1 in ds then Claims(ds[below - 1], retryCount) else 0
  }

  function ClaimsLeft(db: Db): nat {
    ClaimsBelow(db.deliveries, db.retryCount, db.nextDelivery)
  }

  /** What the delivery the worker holds can still become. */
  function InHand(p: Phase, retryCount: int): nat {
    match p
    case ToLoad(_, _, row, _) => Max(0, retryCount - row.attempts)
    case ToSend(_, _, row, _) => Max(0, retryCount - row.attempts)
    case ToRecord(_, _, row, _, _) => Max(0, retryCount - row.attempts)
    case _ => 0
  }

  function Potential(s: Sys): nat {
    ClaimsLeft(s.db) + InHand(s.phase, s.db.retryCount)
  }

  lemma {:induction false} OneRowChanges(ds: map<nat, Delivery>, id: nat, d: Delivery, retryCount: int, below: nat)
    requires id in ds
    ensures ClaimsBelow(ds[id := d], retryCount, below) ==
              ClaimsBelow(ds, retryCount, below) + if id < below then Claims(d, retryCount) - Claims(ds[id], retryCount) else 0
  {
    if below > 0 {
      OneRowChanges(ds, id, d, retryCount, below - 1);
    }
  }

  predicate OfWorker(a: Action) {
    a.Read? || a.Claim? || a.Load? || a.Send? || a.Record? || a.CountOpen? || a.CountFailed? || a.Write? || a.Abort? || a.Crash?
  }

  /** The retry count the worker has read is the one in the table. */
  predicate RetryAgrees(s: Sys) {
    s.phase.ToSend? || s.phase.ToRecord? ==> s.phase.retry == s.db.retryCount
  }

  predicate Claiming(s: Sys, a: Action) {
    a.Claim? && s.phase.ToClaim? && s.phase.id in s.db.deliveries && s.db.deliveries[s.phase.id].status == Pending
  }

  lemma ClaimLowers(s: Sys)
    requires Good(s) && Claiming(s, Claim)
    ensures Potential(ClaimStep(s)) < Potential(s)
  {
    var id := s.phase.id;
    OneRowChanges(s.db.deliveries, id, s.db.deliveries[id].(status := Sending), s.db.retryCount, s.db.nextDelivery);
  }

  lemma RecordLowers(s: Sys)
    requires Good(s) && s.phase.ToRecord? && RetryAgrees(s)
    ensures Potential(RecordStep(s)) <= Potential(s)
  {
    var p := s.phase;
    OneRowChanges(s.db.deliveries, p.id, RecordRow(s.db, p.id, p.row, p.retry, p.ok, p.now).deliveries[p.id],
                  s.db.retryCount, s.db.nextDelivery);
  }

  lemma StepLowers(s: Sys, a: Action)
    requires Good(s) && RetryAgrees(s) && OfWorker(a)
    ensures RetryAgrees(Step(s, a)) && Step(s, a).db.retryCount == s.db.retryCount
    ensures Potential(Step(s, a)) <= Potential(s)
    ensures Claiming(s, a) ==> Potential(Step(s, a)) < Potential(s)
  {
    if Claiming(s, a) {
      ClaimLowers(s);
    } else if a.Record? && s.phase.ToRecord? {
      RecordLowers(s);
    }
  }

  /** How many claims a run makes. */
  ghost function ClaimsMade(s: Sys, actions: seq<Action>): nat {
    if actions == [] then 0
    else
      var init, a := actions[..|actions| - 1], actions[|actions| - 1];
      ClaimsMade(s, init) + if Claiming(Run(s, init), a) then 1 else 0
  }

  /** Without new events, and with the retry count left alone, the worker can claim at most as often as the pending
      rows allow together: max(1, RetryCount + 1 - attempts) times each, whatever the clock reads. */
  lemma {:induction false} ClaimsAreBounded(s: Sys, actions: seq<Action>)
    requires Good(s) && RetryAgrees(s) && forall i :: 0 <= i < |actions| ==> OfWorker(actions[i])
    ensures RetryAgrees(Run(s, actions))
    ensures ClaimsMade(s, actions) + Potential(Run(s, actions)) <= Potential(s)
  {
    if actions != [] {
      var init := actions[..|actions| - 1];
      ClaimsAreBounded(s, init);
      RunIsGood(s, init);
      StepLowers(Run(s, init), actions[|actions| - 1]);
    }
  }
}
