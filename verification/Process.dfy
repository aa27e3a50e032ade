/** One call of ProcessOnce as steps of the machine: what the service's worker methods are proved against. */
module Process {
  import opened Store
  import opened Worker

  /** One transaction of another goroutine: an Enqueue, or an administrator's edit. */
  datatype Deed =
    | Alert(event: Event, now: Time)
    | RuleEdit(key: string, rule: Rule, chosen: set<nat>)
    | RecipientEdit(recipients: seq<Recipient>)
    | RetryEdit(count: int)

  function ActionOf(d: Deed): Action {
    match d
    case Alert(e, now) => Enqueue(e, now)
    case RuleEdit(key, rule, chosen) => SetRule(key, rule, chosen)
    case RecipientEdit(rs) => SetRecipients(rs)
    case RetryEdit(n) => SetRetry(n)
  }

  function DeedStep(s: Sys, d: Deed): Sys {
    if d.Alert? then EnqueueStep(s, d.event, d.now) else AdminStep(s, ActionOf(d))
  }

  /** Where a database error ends one ProcessOnce early. */
  datatype Stop = Nowhere | AtRead | AtClaim | AtLookup(k: nat) | AtRecord | AtCount(k: nat) | AtWrite

  /** What the world does during one ProcessOnce: the clock it reads, whether Send succeeds, which statement fails,
      and the transactions that fall before each of its statements. */
  datatype Plan = Plan(now: Time, sent: bool, stop: Stop, gaps: map<nat, seq<Deed>>)

  /** What one ProcessOnce leaves: the system, and its two results. */
  datatype Outcome = Outcome(sys: Sys, processed: bool, failed: bool)

  function Gap(plan: Plan, i: nat): seq<Deed> {
    if i in plan.gaps then plan.gaps[i] else []
  }

  predicate Undisturbed(plan: Plan) {
    forall i :: i in plan.gaps ==> plan.gaps[i] == []
  }

  function Burst(s: Sys, gap: seq<Deed>): Sys {
    if gap == [] then s
    else
      var n := |gap| - 1;
      DeedStep(Burst(s, gap[..n]), gap[n])
  }

  function Interrupted(s: Sys, plan: Plan, i: nat): Sys {
    Burst(s, Gap(plan, i))
  }

  function ProcessOnce(s: Sys, plan: Plan): Outcome {
    var s0 := Interrupted(s, plan, 0);
    if plan.stop == AtRead then Outcome(s0, false, true)
    else
      var s1 := ReadStep(s0, plan.now);
      if !s1.phase.ToClaim? then Outcome(s1, false, false) else ClaimOnward(s1, plan)
  }

  function ClaimOnward(s: Sys, plan: Plan): Outcome {
    var s1 := Interrupted(s, plan, 1);
    if plan.stop == AtClaim then Outcome(AbortStep(s1, Idle), false, true)
    else
      var s2 := ClaimStep(s1);
      if !s2.phase.ToLoad? then Outcome(s2, true, false) else LookUpOnward(s2, plan, 0)
  }

  /** Lookup number k of three, and what follows. */
  function LookUpOnward(s: Sys, plan: Plan, k: nat): (r: Outcome)
    requires k <= 2
    ensures r.processed
    decreases 2 - k
  {
    var s2 := Interrupted(s, plan, 2 + k);
    if plan.stop == AtLookup(k) then Outcome(AbortStep(s2, Idle), true, true)
    else
      var s3 := LoadStep(s2);
      if s3.phase.ToLoad? && k < 2 then LookUpOnward(s3, plan, k + 1)
      else if s3.phase.ToSend? then RecordOnward(SendStep(Interrupted(s3, plan, 5), plan.sent), plan)
      else Outcome(s3, true, true)
  }

  function RecordOnward(s: Sys, plan: Plan): (r: Outcome)
    ensures r.processed
  {
    var s4 := Interrupted(s, plan, 6);
    if plan.stop == AtRecord then Outcome(AbortStep(s4, Idle), true, true)
    else CountOnward(RecordStep(s4), plan)
  }

  /** updateEventStatus: count, count again, write. */
  function CountOnward(s: Sys, plan: Plan): (r: Outcome)
    ensures r.processed
  {
    var s5 := Interrupted(s, plan, 7);
    if plan.stop == AtCount(0) then Outcome(AbortStep(s5, Idle), true, true)
    else CountAgainOnward(CountStep(s5, false), plan)
  }

  function CountAgainOnward(s: Sys, plan: Plan): (r: Outcome)
    ensures r.processed
  {
    var s6 := Interrupted(s, plan, 8);
    if plan.stop == AtCount(1) then Outcome(AbortStep(s6, Idle), true, true)
    else WriteOnward(CountStep(s6, true), plan)
  }

  function WriteOnward(s: Sys, plan: Plan): (r: Outcome)
    ensures r.processed
  {
    var s7 := Interrupted(s, plan, 9);
    if plan.stop == AtWrite then Outcome(AbortStep(s7, Idle), true, true) else Outcome(WriteStep(s7), true, false)
  }

  lemma {:induction false} BurstKeepsPhase(s: Sys, gap: seq<Deed>)
    ensures Burst(s, gap).phase == s.phase
  {
    if gap != [] {
      BurstKeepsPhase(s, gap[..|gap| - 1]);
    }
  }
}
