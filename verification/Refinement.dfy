/** One ProcessOnce call is a run of the machine: whatever the interleaving and the errors inside it. */
module Refinement {
  import opened Store
  import opened Worker
  import opened Process
  import opened Drain

  /** A property no step of the machine destroys. */
  ghost predicate Inductive(inv: Sys -> bool) {
    forall s: Sys, a: Action :: inv(s) ==> inv(Step(s, a))
  }

  lemma DeedIsStep(s: Sys, d: Deed)
    ensures Step(s, ActionOf(d)) == DeedStep(s, d) && DeedStep(s, d).phase == s.phase
  {
  }

  lemma {:induction false} BurstKeeps(s: Sys, gap: seq<Deed>, inv: Sys -> bool)
    requires Inductive(inv) && inv(s)
    ensures inv(Burst(s, gap)) && Burst(s, gap).phase == s.phase
  {
    if gap != [] {
      var n := |gap| - 1;
      BurstKeeps(s, gap[..n], inv);
      DeedIsStep(Burst(s, gap[..n]), gap[n]);
      assert inv(Step(Burst(s, gap[..n]), ActionOf(gap[n])));
    }
  }

  lemma WriteKeeps(s: Sys, plan: Plan, inv: Sys -> bool)
    requires Inductive(inv) && inv(s) && s.phase.ToWrite?
    ensures inv(WriteOnward(s, plan).sys) && WriteOnward(s, plan).sys.phase.Idle?
  {
    BurstKeeps(s, Gap(plan, 9), inv);
    assert inv(Step(Interrupted(s, plan, 9), if plan.stop == AtWrite then Abort else Write));
  }

  lemma CountAgainKeeps(s: Sys, plan: Plan, inv: Sys -> bool)
    requires Inductive(inv) && inv(s) && s.phase.ToCountFailed?
    ensures inv(CountAgainOnward(s, plan).sys) && CountAgainOnward(s, plan).sys.phase.Idle?
  {
    BurstKeeps(s, Gap(plan, 8), inv);
    var s6 := Interrupted(s, plan, 8);
    if plan.stop == AtCount(1) {
      assert inv(Step(s6, Abort));
    } else {
      assert inv(Step(s6, CountFailed));
      WriteKeeps(CountStep(s6, true), plan, inv);
    }
  }

  lemma CountKeeps(s: Sys, plan: Plan, inv: Sys -> bool)
    requires Inductive(inv) && inv(s) && s.phase.ToCountOpen?
    ensures inv(CountOnward(s, plan).sys) && CountOnward(s, plan).sys.phase.Idle?
  {
    BurstKeeps(s, Gap(plan, 7), inv);
    var s5 := Interrupted(s, plan, 7);
    if plan.stop == AtCount(0) {
      assert inv(Step(s5, Abort));
    } else {
      assert inv(Step(s5, CountOpen));
      CountAgainKeeps(CountStep(s5, false), plan, inv);
    }
  }

  lemma RecordKeeps(s: Sys, plan: Plan, inv: Sys -> bool)
    requires Inductive(inv) && inv(s) && s.phase.ToRecord?
    ensures inv(RecordOnward(s, plan).sys) && RecordOnward(s, plan).sys.phase.Idle?
  {
    BurstKeeps(s, Gap(plan, 6), inv);
    var s4 := Interrupted(s, plan, 6);
    if plan.stop == AtRecord {
      assert inv(Step(s4, Abort));
    } else {
      assert inv(Step(s4, Record));
      CountKeeps(RecordStep(s4), plan, inv);
    }
  }

  lemma SendKeeps(s: Sys, plan: Plan, inv: Sys -> bool)
    requires Inductive(inv) && inv(s) && s.phase.ToSend?
    ensures var end := RecordOnward(SendStep(Interrupted(s, plan, 5), plan.sent), plan).sys; inv(end) && end.phase.Idle?
  {
    BurstKeeps(s, Gap(plan, 5), inv);
    assert inv(Step(Interrupted(s, plan, 5), Send(plan.sent)));
    RecordKeeps(SendStep(Interrupted(s, plan, 5), plan.sent), plan, inv);
  }

  lemma LookUpKeeps(s: Sys, plan: Plan, k: nat, inv: Sys -> bool)
    requires Inductive(inv) && inv(s) && s.phase.ToLoad? && s.phase.found == k <= 2
    ensures inv(LookUpOnward(s, plan, k).sys) && LookUpOnward(s, plan, k).sys.phase.Idle?
    decreases 2 - k
  {
    BurstKeeps(s, Gap(plan, 2 + k), inv);
    var s2 := Interrupted(s, plan, 2 + k);
    if plan.stop == AtLookup(k) {
      assert inv(Step(s2, Abort));
    } else {
      assert inv(Step(s2, Load));
      var s3 := LoadStep(s2);
      if s3.phase.ToLoad? {
        LookUpKeeps(s3, plan, k + 1, inv);
      } else if s3.phase.ToSend? {
        SendKeeps(s3, plan, inv);
      }
    }
  }

  lemma ClaimKeeps(s: Sys, plan: Plan, inv: Sys -> bool)
    requires Inductive(inv) && inv(s) && s.phase.ToClaim?
    ensures inv(ClaimOnward(s, plan).sys) && ClaimOnward(s, plan).sys.phase.Idle?
  {
    BurstKeeps(s, Gap(plan, 1), inv);
    var s1 := Interrupted(s, plan, 1);
    if plan.stop == AtClaim {
      assert inv(Step(s1, Abort));
    } else {
      assert inv(Step(s1, Claim));
      if ClaimStep(s1).phase.ToLoad? {
        LookUpKeeps(ClaimStep(s1), plan, 0, inv);
      }
    }
  }

  /** Whatever every step of the machine keeps, ProcessOnce keeps, with any transactions between its statements and
      any of them failing; and it leaves the worker idle. */
  lemma ProcessKeeps(s: Sys, plan: Plan, inv: Sys -> bool)
    requires Inductive(inv) && inv(s) && s.phase.Idle?
    ensures inv(Process.ProcessOnce(s, plan).sys) && Process.ProcessOnce(s, plan).sys.phase.Idle?
  {
    BurstKeeps(s, Gap(plan, 0), inv);
    var s0 := Interrupted(s, plan, 0);
    if plan.stop != AtRead {
      assert inv(Step(s0, Read(plan.now)));
      if ReadStep(s0, plan.now).phase.ToClaim? {
        ClaimKeeps(ReadStep(s0, plan.now), plan, inv);
      }
    }
  }

  ghost predicate Reachable(from: Sys, s: Sys) {
    exists actions :: Run(from, actions) == s
  }

  lemma ReachableIsInductive(from: Sys, s: Sys, a: Action)
    requires Reachable(from, s)
    ensures Reachable(from, Step(s, a))
  {
    var actions :| Run(from, actions) == s;
    assert (actions + [a])[..|actions|] == actions;
    assert Run(from, actions + [a]) == Step(s, a);
  }

  /** So ProcessOnce is a run of the machine, and every theorem about runs is one about it. */
  lemma ProcessIsRun(s: Sys, plan: Plan)
    requires s.phase.Idle?
    ensures Reachable(s, Process.ProcessOnce(s, plan).sys)
  {
    var inv := x => Reachable(s, x);
    forall x: Sys, a: Action | inv(x) ensures inv(Step(x, a)) {
      ReachableIsInductive(s, x, a);
    }
    assert Run(s, []) == s;
    ProcessKeeps(s, plan, inv);
  }

  /** ProcessOnce keeps the tables sound. */
  lemma ProcessIsGood(s: Sys, plan: Plan)
    requires Good(s) && s.phase.Idle?
    ensures Good(Process.ProcessOnce(s, plan).sys)
  {
    var inv := x => Good(x);
    forall x: Sys, a: Action | inv(x) ensures inv(Step(x, a)) {
      StepIsGood(x, a);
    }
    ProcessKeeps(s, plan, inv);
  }

  // ---- undisturbed calls --------------------------------------------------------------

  lemma NoInterruption(s: Sys, plan: Plan, i: nat)
    requires Undisturbed(plan)
    ensures Interrupted(s, plan, i) == s
  {
  }

  lemma CountLowers(s: Sys, plan: Plan)
    requires Undisturbed(plan) && Good(s) && s.phase.ToCountOpen?
    ensures var end := CountOnward(s, plan).sys;
            ClaimsLeft(end.db) <= Potential(s) && end.db.retryCount == s.db.retryCount
  {
    NoInterruption(s, plan, 7);
    NoInterruption(CountStep(s, false), plan, 8);
    NoInterruption(CountStep(CountStep(s, false), true), plan, 9);
  }

  lemma RecordLowers(s: Sys, plan: Plan)
    requires Undisturbed(plan) && Good(s) && s.phase.ToRecord? && RetryAgrees(s)
    ensures var end := RecordOnward(s, plan).sys;
            ClaimsLeft(end.db) <= Potential(s) && end.db.retryCount == s.db.retryCount
  {
    NoInterruption(s, plan, 6);
    if plan.stop != AtRecord {
      RecordIsGood(s);
      Drain.RecordLowers(s);
      CountLowers(RecordStep(s), plan);
    }
  }

  /** Looking up and sending leave the held row's potential as it was. */
  lemma HeldPotential(s: Sys, ok: bool)
    requires s.phase.ToLoad?
    ensures var s3 := LoadStep(s);
            && s3.db == s.db && (s3.phase.ToLoad? ==> Potential(s3) == Potential(s))
            && (s3.phase.ToSend? ==>
                  var s4 := SendStep(s3, ok);
                  s4.phase.ToRecord? && s4.db == s.db && RetryAgrees(s4) && Potential(s4) == Potential(s))
  {
  }

  lemma LookUpLowers(s: Sys, plan: Plan, k: nat)
    requires Undisturbed(plan) && Good(s) && s.phase.ToLoad? && s.phase.found == k <= 2
    ensures var end := LookUpOnward(s, plan, k).sys;
            ClaimsLeft(end.db) <= Potential(s) && end.db.retryCount == s.db.retryCount
    decreases 2 - k
  {
    NoInterruption(s, plan, 2 + k);
    var s3 := LoadStep(s);
    HeldPotential(s, plan.sent);
    HoldingIsGood(s, 0, true);
    if plan.stop != AtLookup(k) {
      if s3.phase.ToLoad? {
        LookUpLowers(s3, plan, k + 1);
      } else if s3.phase.ToSend? {
        NoInterruption(s3, plan, 5);
        var s4 := SendStep(s3, plan.sent);
        assert LookUpOnward(s, plan, k) == RecordOnward(s4, plan);
        HoldingIsGood(s3, 0, plan.sent);
        RecordLowers(s4, plan);
      }
    }
  }

  lemma ClaimTakes(s: Sys)
    requires Good(s) && s.phase.ToClaim?
    requires s.phase.id in s.db.deliveries && s.db.deliveries[s.phase.id].status == Pending
    ensures var s2 := ClaimStep(s);
            s2.phase.ToLoad? && s2.phase.found == 0 && s2.db.retryCount == s.db.retryCount
            && Good(s2) && Potential(s2) < ClaimsLeft(s.db)
  {
    ClaimLowers(s);
    ClaimIsGood(s);
  }

  lemma ClaimOnwardIs(s: Sys, plan: Plan)
    requires Undisturbed(plan) && s.phase.ToClaim? && ClaimStep(s).phase.ToLoad?
    ensures ClaimOnward(s, plan) ==
              if plan.stop == AtClaim then Outcome(AbortStep(s, Idle), false, true) else LookUpOnward(ClaimStep(s), plan, 0)
  {
    NoInterruption(s, plan, 1);
  }

  lemma ClaimOnwardLowers(s: Sys, plan: Plan)
    requires Undisturbed(plan) && Good(s) && s.phase.ToClaim?
    requires s.phase.id in s.db.deliveries && s.db.deliveries[s.phase.id].status == Pending
    ensures var end := ClaimOnward(s, plan);
            && end.sys.db.retryCount == s.db.retryCount && (end.processed || end.failed)
            && ClaimsLeft(end.sys.db) <= ClaimsLeft(s.db)
            && (end.processed ==> ClaimsLeft(end.sys.db) < ClaimsLeft(s.db))
  {
    ClaimTakes(s);
    ClaimOnwardIs(s, plan);
    if plan.stop != AtClaim {
      LookUpLowers(ClaimStep(s), plan, 0);
    }
  }

  /** An undisturbed call that made progress lowers the number of claims left; one that neither progressed nor
      failed found nothing due. */
  lemma ProcessLowers(s: Sys, plan: Plan)
    requires Undisturbed(plan) && Good(s) && s.phase.Idle?
    ensures var end := Process.ProcessOnce(s, plan);
            && end.sys.db.retryCount == s.db.retryCount
            && ClaimsLeft(end.sys.db) <= ClaimsLeft(s.db)
            && (end.processed ==> ClaimsLeft(end.sys.db) < ClaimsLeft(s.db))
            && (!end.processed && !end.failed ==> forall id :: id in s.db.deliveries ==> !Due(s.db.deliveries[id], plan.now))
  {
    NoInterruption(s, plan, 0);
    var s1 := ReadStep(s, plan.now);
    if plan.stop != AtRead && s1.phase.ToClaim? {
      HoldingIsGood(s, plan.now, true);
      ClaimOnwardLowers(s1, plan);
    }
  }
}
