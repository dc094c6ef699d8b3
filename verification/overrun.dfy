/** Sends that outlast their claims: what one such run does, and for which Sends agreement can be promised at all. */
module Overrun {
  import opened Values
  import opened SendProtocol
  import T = ClaimTable

  /** Send 0 is at the provider when its claim runs out; `late` after its clock reading Send 1 claims the key and is
      settled first. */
  function OverrunSteps(key: T.Key, ttl: int, late: nat, r0: ResultValue, o1: Outcome): seq<Step> {
    [ReadClock(0, key, ttl), TakeLock(0), CallProvider(0), Tick(late), ReadClock(1, key, ttl), TakeLock(1),
     CallProvider(1), ProviderReturns(1, o1), Settle(1), ProviderReturns(0, Outcome(Some(r0), None)), Settle(0)]
  }

  function FirstClaim(key: T.Key, ttl: int): Claim { Claim(key, ttl, 1, 0) }

  function SecondClaim(key: T.Key, ttl: int, late: nat): Claim { Claim(key, ttl, 2, late) }

  function ClaimedAt(key: T.Key, c: Claim): T.Table { map[key := T.Entry(None, c.Deadline(), c.token)] }

  /** What Send 1 leaves: its result recorded, or nothing. */
  function LeftBySecond(key: T.Key, ttl: int, late: nat, o1: Outcome): T.Table {
    if o1.result.None? then map[] else map[key := T.Entry(o1.result, late + ttl, T.NO_TOKEN)]
  }

  lemma FirstOutlastsItsClaim(key: T.Key, ttl: int, late: nat, r0: ResultValue, o1: Outcome)
    ensures var c0 := FirstClaim(key, ttl);
            && StateAt(0, OverrunSteps(key, ttl, late, r0, o1), 1) == State(0, map[], 2, map[0 := Stamped(c0)])
            && StateAt(0, OverrunSteps(key, ttl, late, r0, o1), 2)
               == State(0, ClaimedAt(key, c0), 2, map[0 := Granted(c0, 0)])
            && StateAt(0, OverrunSteps(key, ttl, late, r0, o1), 4)
               == State(late, ClaimedAt(key, c0), 2, map[0 := Calling(c0, 0, 0)])
  {
  }

  lemma SecondGrant(key: T.Key, ttl: int, late: nat, r0: ResultValue, o1: Outcome)
    requires ttl <= late
    ensures var c0, c1 := FirstClaim(key, ttl), SecondClaim(key, ttl, late);
            StateAt(0, OverrunSteps(key, ttl, late, r0, o1), 6)
              == State(late, ClaimedAt(key, c1), 3, map[0 := Calling(c0, 0, 0), 1 := Granted(c1, late)])
  {
    FirstOutlastsItsClaim(key, ttl, late, r0, o1);
    var c0, c1 := FirstClaim(key, ttl), SecondClaim(key, ttl, late);
    assert StateAt(0, OverrunSteps(key, ttl, late, r0, o1), 5)
        == State(late, ClaimedAt(key, c0), 3, map[0 := Calling(c0, 0, 0), 1 := Stamped(c1)]);
  }

  lemma SecondReturns(key: T.Key, ttl: int, late: nat, r0: ResultValue, o1: Outcome)
    requires ttl <= late
    ensures var c0, c1 := FirstClaim(key, ttl), SecondClaim(key, ttl, late);
            StateAt(0, OverrunSteps(key, ttl, late, r0, o1), 8)
              == State(late, ClaimedAt(key, c1), 3, map[0 := Calling(c0, 0, 0), 1 := Returned(c1, late, late, o1)])
  {
    SecondGrant(key, ttl, late, r0, o1);
    var c0, c1 := FirstClaim(key, ttl), SecondClaim(key, ttl, late);
    assert StateAt(0, OverrunSteps(key, ttl, late, r0, o1), 7)
        == State(late, ClaimedAt(key, c1), 3, map[0 := Calling(c0, 0, 0), 1 := Calling(c1, late, late)]);
  }

  lemma SecondSettles(key: T.Key, ttl: int, late: nat, r0: ResultValue, o1: Outcome)
    requires ttl <= late
    ensures var c0, c1 := FirstClaim(key, ttl), SecondClaim(key, ttl, late);
            StateAt(0, OverrunSteps(key, ttl, late, r0, o1), 9)
              == State(late, LeftBySecond(key, ttl, late, o1), 3, map[0 := Calling(c0, 0, 0), 1 := Done(c1, o1, true)])
  {
    SecondReturns(key, ttl, late, r0, o1);
    var c1 := SecondClaim(key, ttl, late);
    assert T.Settle(ClaimedAt(key, c1), key, 2, ttl, o1.result, o1.err.Some?, late) == LeftBySecond(key, ttl, late, o1);
  }

  lemma FirstReturns(key: T.Key, ttl: int, late: nat, r0: ResultValue, o1: Outcome)
    requires ttl <= late
    ensures var c0, c1 := FirstClaim(key, ttl), SecondClaim(key, ttl, late);
            StateAt(0, OverrunSteps(key, ttl, late, r0, o1), 10)
              == State(late, LeftBySecond(key, ttl, late, o1), 3,
                  map[0 := Returned(c0, 0, 0, Outcome(Some(r0), None)), 1 := Done(c1, o1, true)])
  {
    SecondSettles(key, ttl, late, r0, o1);
  }

  /** OVERRUN. Both Sends call the provider and each returns its own outcome. If Send 1 has a result the store keeps
      that one. If it has none it leaves the entry absent, though another claim had replaced Send 0's, and Send 0
      still records. */
  lemma OverrunBreaksAgreement(key: T.Key, ttl: int, late: nat, r0: ResultValue, o1: Outcome)
    requires ttl <= late
    ensures var s := StateAt(0, OverrunSteps(key, ttl, late, r0, o1), 11);
            && s.callers == map[0 := Done(FirstClaim(key, ttl), Outcome(Some(r0), None), true),
                                1 := Done(SecondClaim(key, ttl, late), o1, true)]
            && s.table == map[key := T.Entry(if o1.result.Some? then o1.result else Some(r0), late + ttl, T.NO_TOKEN)]
    ensures o1.result.None? <==> key !in StateAt(0, OverrunSteps(key, ttl, late, r0, o1), 10).table
  {
    FirstReturns(key, ttl, late, r0, o1);
  }

  // ---------------------------------------------------------------- how late a Send may be

  /** What Agreement promises of q's step m, p having been granted the key at step i and settled with r at step f. */
  ghost predicate AgreesAt(clock: int, steps: seq<Step>, f: nat, p: Caller, r: ResultValue, err: Option<ErrorValue>,
                           m: nat, q: Caller)
    requires m < |steps| && q in StateAt(clock, steps, m).callers
  {
    var ph := StateAt(clock, steps, m).callers[q];
    && (steps[m] == TakeLock(q) && ph.Stamped? ==>
          StateAt(clock, steps, m + 1).callers[q]
          == Done(ph.claim, if m < f then IN_FLIGHT else Outcome(Some(r), None), false))
    && (steps[m] == Settle(q) && ph.Returned? ==>
          q == p && m == f && StateAt(clock, steps, m + 1).callers[q].reply == Outcome(Some(r), err))
    && (steps[m] == SettleRefused(q) ==> !ph.Returned?)
  }

  /** p is granted the key at step i and settles with r at step f. */
  ghost predicate Spans(clock: int, steps: seq<Step>, key: T.Key, i: nat, f: nat, p: Caller, r: ResultValue,
                        err: Option<ErrorValue>)
  {
    i < f && GrantsTo(clock, steps, i, p, key) && SettlesWith(clock, steps, f, p, Outcome(Some(r), err))
  }

  /** Step m comes after the grant, and before the record expires. */
  ghost predicate During(clock: int, steps: seq<Step>, i: nat, f: nat, p: Caller, m: nat)
    requires i < f < |steps| && p in StateAt(clock, steps, i).callers
  {
    && i < m < |steps|
    && (m > f ==> StateAt(clock, steps, m).clock
                  < StateAt(clock, steps, f).clock + StateAt(clock, steps, i).callers[p].claim.ttl)
  }

  /** Agreement holds throughout the run. */
  ghost predicate Agrees(clock: int, steps: seq<Step>, key: T.Key) {
    forall i, f, p, r, err, m, q | Spans(clock, steps, key, i, f, p, r, err) && During(clock, steps, i, f, p, m)
                                && q in StateAt(clock, steps, m).callers
                                && StateAt(clock, steps, m).callers[q].claim.key == key ::
      AgreesAt(clock, steps, f, p, r, err, m, q)
  }

  /** Every Send for the key asks for this ttl, and ends within `late` of the clock reading that stamps its claim. */
  ghost predicate Keeps(clock: int, steps: seq<Step>, key: T.Key, ttl: int, late: int) {
    && (forall i | 0 <= i < |steps| && steps[i].ReadClock? && steps[i].key == key :: steps[i].ttl == ttl)
    && (forall f, p, o | EndsWith(clock, steps, f, p, o) && StateAt(clock, steps, f).callers[p].claim.key == key ::
          StateAt(clock, steps, f).clock <= StateAt(clock, steps, f).callers[p].claim.stamp + late)
  }

  lemma {:induction false} ClaimsHaveTtl(clock: int, steps: seq<Step>, key: T.Key, ttl: int, late: int, i: nat)
    requires i <= |steps| && Keeps(clock, steps, key, ttl, late)
    ensures forall p | p in StateAt(clock, steps, i).callers && StateAt(clock, steps, i).callers[p].claim.key == key ::
              StateAt(clock, steps, i).callers[p].claim.ttl == ttl
  {
    if i > 0 {
      ClaimsHaveTtl(clock, steps, key, ttl, late, i - 1);
    }
  }

  lemma TimelyRunsAgree(clock: int, steps: seq<Step>, key: T.Key, ttl: int, late: int)
    requires NoOutsideWrites(steps, key) && Keeps(clock, steps, key, ttl, late) && late < ttl
    ensures Agrees(clock, steps, key)
  {
    forall f, p, o | EndsWith(clock, steps, f, p, o) && StateAt(clock, steps, f).callers[p].claim.key == key
      ensures StateAt(clock, steps, f).clock < StateAt(clock, steps, f).callers[p].claim.Deadline()
    {
      ClaimsHaveTtl(clock, steps, key, ttl, late, f);
    }
    forall i, f, p, r, err, m, q | Spans(clock, steps, key, i, f, p, r, err) && During(clock, steps, i, f, p, m)
                                && q in StateAt(clock, steps, m).callers
                                && StateAt(clock, steps, m).callers[q].claim.key == key
      ensures AgreesAt(clock, steps, f, p, r, err, m, q)
    {
      Agreement(clock, steps, i, f, m, p, q, key, r, err);
    }
  }

  lemma OverrunKeeps(key: T.Key, ttl: int, late: nat, r0: ResultValue, r1: ResultValue)
    requires ttl <= late
    ensures Keeps(0, OverrunSteps(key, ttl, late, r0, Outcome(Some(r1), None)), key, ttl, late)
    ensures NoOutsideWrites(OverrunSteps(key, ttl, late, r0, Outcome(Some(r1), None)), key)
  {
    var o1 := Outcome(Some(r1), None);
    var steps := OverrunSteps(key, ttl, late, r0, o1);
    SecondReturns(key, ttl, late, r0, o1);
    FirstReturns(key, ttl, late, r0, o1);
    forall f, p, o | EndsWith(0, steps, f, p, o)
      ensures StateAt(0, steps, f).clock <= StateAt(0, steps, f).callers[p].claim.stamp + late
    {
      assert (f == 8 && p == 1) || (f == 10 && p == 0);
    }
  }

  lemma OverrunDisagrees(key: T.Key, ttl: int, late: nat, r0: ResultValue, r1: ResultValue)
    requires ttl <= late
    ensures !Agrees(0, OverrunSteps(key, ttl, late, r0, Outcome(Some(r1), None)), key)
  {
    var o1 := Outcome(Some(r1), None);
    var steps := OverrunSteps(key, ttl, late, r0, o1);
    FirstOutlastsItsClaim(key, ttl, late, r0, o1);
    SecondReturns(key, ttl, late, r0, o1);
    FirstReturns(key, ttl, late, r0, o1);
    assert Spans(0, steps, key, 1, 10, 0, r0, None);
    assert During(0, steps, 1, 10, 0, 8);
    assert !AgreesAt(0, steps, 10, 0, r0, None, 8, 1);
  }

  /** THE BOUNDARY. Agreement can be promised for Sends that end within `late` of their clock reading if and only if
      that is less than the ttl. */
  lemma AgreementBoundary(key: T.Key, ttl: int, late: nat)
    ensures (forall clock, steps | NoOutsideWrites(steps, key) && Keeps(clock, steps, key, ttl, late) ::
               Agrees(clock, steps, key))
       <==> late < ttl
  {
    if late < ttl {
      forall clock, steps | NoOutsideWrites(steps, key) && Keeps(clock, steps, key, ttl, late)
        ensures Agrees(clock, steps, key)
      {
        TimelyRunsAgree(clock, steps, key, ttl, late);
      }
    } else {
      var r := ResultValue(true, "", "", "", 0, None, None);
      OverrunKeeps(key, ttl, late, r, r);
      OverrunDisagrees(key, ttl, late, r, r);
    }
  }
}
