/** Resource thresholds: the counter that threshold keeps for one subject, and what it means for the readings so far. */
module Hysteresis {

  datatype Reading = Reading(value: real, limit: real)

  predicate High(r: Reading) {
    r.value >= r.limit
  }

  predicate Low(r: Reading) {
    r.value < r.limit - 5.0
  }

  /** The counter after a reading: up when high, to zero when low, unchanged in the band between. */
  function Bump(count: nat, r: Reading): nat {
    if High(r) then count + 1 else if Low(r) then 0 else count
  }

  function Count(rs: seq<Reading>): nat {
    if rs == [] then 0 else Bump(Count(rs[..|rs| - 1]), rs[|rs| - 1])
  }

  /** No reading from i on lies more than 5 points below its limit. */
  ghost predicate NoLowFrom(rs: seq<Reading>, i: nat) {
    forall k :: i <= k < |rs| ==> rs[k].value >= rs[k].limit - 5.0
  }

  /** Reading i reached its limit, and none since was low. */
  ghost predicate HighSinceLow(rs: seq<Reading>, i: nat) {
    i < |rs| && rs[i].value >= rs[i].limit && NoLowFrom(rs, i)
  }

  /** At least two readings reached their limit since the last low one. */
  ghost predicate Alarming(rs: seq<Reading>) {
    exists i, j :: i < j && HighSinceLow(rs, i) && HighSinceLow(rs, j)
  }

  /** No reading reached its limit since the last low one. */
  ghost predicate Calm(rs: seq<Reading>) {
    forall i :: !HighSinceLow(rs, i)
  }

  lemma HighSinceGrows(rs: seq<Reading>, r: Reading, i: nat)
    ensures HighSinceLow(rs + [r], i) <==> if i == |rs| then High(r) else !Low(r) && HighSinceLow(rs, i)
  {
    if i < |rs| {
      if HighSinceLow(rs, i) && !Low(r) {
        assert NoLowFrom(rs + [r], i);
      }
      if HighSinceLow(rs + [r], i) {
        forall k | i <= k < |rs| ensures !Low(rs[k]) {
          assert (rs + [r])[k] == rs[k];
        }
        assert (rs + [r])[|rs|] == r;
      }
    }
  }

  lemma HighSinceShrinks(rs: seq<Reading>)
    requires rs != []
    ensures var n := |rs| - 1;
            forall i :: HighSinceLow(rs, i) <==> if i == n then High(rs[n]) else !Low(rs[n]) && HighSinceLow(rs[..n], i)
  {
    var n := |rs| - 1;
    assert rs[..n] + [rs[n]] == rs;
    forall i
      ensures HighSinceLow(rs, i) <==> if i == n then High(rs[n]) else !Low(rs[n]) && HighSinceLow(rs[..n], i)
    {
      HighSinceGrows(rs[..n], rs[n], i);
    }
  }

  /** The counter is zero exactly when no reading, and at least two exactly when two readings, reached the limit
      since the last reading more than 5 points below it. */
  lemma {:induction false} CounterMeans(rs: seq<Reading>)
    ensures Count(rs) == 0 <==> Calm(rs)
    ensures Count(rs) >= 2 <==> Alarming(rs)
  {
    if rs != [] {
      var n := |rs| - 1;
      var init, r := rs[..n], rs[n];
      CounterMeans(init);
      HighSinceShrinks(rs);
      if High(r) {
        assert HighSinceLow(rs, n);
        if Count(init) >= 1 {
          var i :| HighSinceLow(init, i);
          assert HighSinceLow(rs, i);
        }
      } else if !Low(r) {
        if Alarming(init) {
          var i, j :| i < j && HighSinceLow(init, i) && HighSinceLow(init, j);
          assert HighSinceLow(rs, i) && HighSinceLow(rs, j);
        }
        if !Calm(init) {
          var i :| HighSinceLow(init, i);
          assert HighSinceLow(rs, i);
        }
      }
    }
  }

  /** A reading in the band changes neither. */
  lemma BandChangesNothing(rs: seq<Reading>, r: Reading)
    requires !High(r) && !Low(r)
    ensures Alarming(rs + [r]) <==> Alarming(rs)
    ensures Calm(rs + [r]) <==> Calm(rs)
  {
    CounterMeans(rs);
    CounterMeans(rs + [r]);
    assert (rs + [r])[..|rs|] == rs;
  }

  /** So the two readings need not be consecutive: 95, 87, 95 against a limit of 90 alarms, though no two
      consecutive readings are high. */
  lemma AlarmWithoutConsecutiveHighs()
    ensures var rs := [Reading(95.0, 90.0), Reading(87.0, 90.0), Reading(95.0, 90.0)];
            Alarming(rs) && forall i :: 0 <= i < |rs| - 1 ==> !(High(rs[i]) && High(rs[i + 1]))
  {
    var rs := [Reading(95.0, 90.0), Reading(87.0, 90.0), Reading(95.0, 90.0)];
    assert HighSinceLow(rs, 0) && HighSinceLow(rs, 2);
  }
}
