/** One store shared by many channels and idempotency keys: over whole runs, what happens under one key is what would
    happen if the store had never held any other. */
module KeyIndependence {
  import opened Values
  import opened CacheKey
  import T = ClaimTable
  import P = SendProtocol

  /** Whether a step can matter to the key. Reading the clock is kept for every Send, since it draws a token. */
  predicate Concerns(s: P.State, step: P.Step, key: T.Key) {
    match step
    case TakeLock(p) => p in s.callers && s.callers[p].claim.key == key
    case CallProvider(p) => p in s.callers && s.callers[p].claim.key == key
    case ProviderReturns(p, _) => p in s.callers && s.callers[p].claim.key == key
    case Settle(p) => p in s.callers && s.callers[p].claim.key == key
    case SettleRefused(p) => p in s.callers && s.callers[p].claim.key == key
    case OutsideSet(k, _, _) => k == key
    case OutsideDelete(k) => k == key
    case _ => true
  }

  /** The run in which every step that concerns other keys is left out. */
  function AloneAt(clock: int, steps: seq<P.Step>, key: T.Key, i: nat): P.State
    requires i <= |steps|
  {
    if i == 0 then P.Init(clock)
    else
      var step := steps[i - 1];
      var kept := if Concerns(P.StateAt(clock, steps, i - 1), step, key) then step else P.Tick(0);
      P.Next(AloneAt(clock, steps, key, i - 1), kept)
  }

  predicate SameEntry(t: T.Table, u: T.Table, key: T.Key) {
    (key in t <==> key in u) && (key in t ==> t[key] == u[key])
  }

  /** The two states agree on the key's entry and on every Send for the key, and on what all Sends are for. */
  ghost predicate SameForKey(s: P.State, u: P.State, key: T.Key) {
    && s.clock == u.clock && s.nextToken == u.nextToken && s.callers.Keys == u.callers.Keys
    && SameEntry(s.table, u.table, key)
    && (forall p | p in s.callers :: s.callers[p].claim == u.callers[p].claim)
    && (forall p | p in s.callers && s.callers[p].claim.key == key :: s.callers[p] == u.callers[p])
  }

  /** No entry under another key, and every Send for another key still waiting for the lock. */
  ghost predicate Alone(u: P.State, key: T.Key) {
    u.table.Keys <= {key} && forall p | p in u.callers && u.callers[p].claim.key != key :: u.callers[p].Stamped?
  }

  lemma EventIsIndependent(t: T.Table, u: T.Table, e: T.Event, key: T.Key)
    requires SameEntry(t, u, key) && u.Keys <= {key} && (e.op.OpSweep? || e.op.OpGet? || e.op.key == key)
    ensures SameEntry(T.Apply(t, e), T.Apply(u, e), key) && T.Apply(u, e).Keys <= {key}
  {
  }

  /** A step without a caller: the clock, the sweep, and outside calls for the key. */
  lemma QuietStepIsIndependent(s: P.State, u: P.State, step: P.Step, key: T.Key)
    requires SameForKey(s, u, key) && Alone(u, key) && Concerns(s, step, key) && !P.HasCaller(step)
    ensures SameForKey(P.Next(s, step), P.Next(u, step), key) && Alone(P.Next(u, step), key)
  {
    EventIsIndependent(s.table, u.table, P.StoreEvent(s, step), key);
  }

  lemma CallerStepIsIndependent(s: P.State, u: P.State, step: P.Step, key: T.Key)
    requires SameForKey(s, u, key) && Alone(u, key) && Concerns(s, step, key) && P.HasCaller(step)
    requires P.Enabled(s, step) && P.Enabled(u, step) && P.StoreEvent(s, step) == P.StoreEvent(u, step)
    ensures SameForKey(P.Next(s, step), P.Next(u, step), key) && Alone(P.Next(u, step), key)
  {
    EventIsIndependent(s.table, u.table, P.StoreEvent(s, step), key);
    PhaseIsIndependent(s, u, step, key);
  }

  lemma SameStepThere(s: P.State, u: P.State, step: P.Step, key: T.Key)
    requires SameForKey(s, u, key) && Concerns(s, step, key)
    ensures P.Enabled(s, step) <==> P.Enabled(u, step)
    ensures P.StoreEvent(s, step) == P.StoreEvent(u, step)
  {
  }

  lemma ConcerningStepIsIndependent(s: P.State, u: P.State, step: P.Step, key: T.Key)
    requires SameForKey(s, u, key) && Alone(u, key) && Concerns(s, step, key)
    ensures SameForKey(P.Next(s, step), P.Next(u, step), key) && Alone(P.Next(u, step), key)
  {
    SameStepThere(s, u, step, key);
    if !P.HasCaller(step) {
      QuietStepIsIndependent(s, u, step, key);
    } else if P.Enabled(s, step) {
      CallerStepIsIndependent(s, u, step, key);
    }
  }

  lemma PhaseIsIndependent(s: P.State, u: P.State, step: P.Step, key: T.Key)
    requires SameForKey(s, u, key) && Concerns(s, step, key) && P.HasCaller(step)
    requires P.Enabled(s, step) && P.Enabled(u, step)
    ensures P.NextPhase(s, step) == P.NextPhase(u, step)
    ensures P.NextPhase(s, step).claim.key != key ==> P.NextPhase(s, step).Stamped?
  {
  }

  lemma OtherStepIsInvisible(s: P.State, u: P.State, step: P.Step, key: T.Key)
    requires SameForKey(s, u, key) && Alone(u, key) && !Concerns(s, step, key)
    ensures SameForKey(P.Next(s, step), P.Next(u, P.Tick(0)), key) && Alone(P.Next(u, P.Tick(0)), key)
  {
    if P.Enabled(s, step) && !P.StoreEvent(s, step).op.OpGet? {
      T.OtherKeysUntouched(s.table, P.StoreEvent(s, step), key);
    }
  }

  /** INDEPENDENCE. At every moment of every run, the entry of a key and every Send for it, replies included, are what
      they are in the run without the other keys' steps, where the store holds nothing but this key. */
  lemma {:induction false} KeysAreIndependent(clock: int, steps: seq<P.Step>, key: T.Key, i: nat)
    requires i <= |steps|
    ensures SameForKey(P.StateAt(clock, steps, i), AloneAt(clock, steps, key, i), key)
    ensures Alone(AloneAt(clock, steps, key, i), key)
  {
    if i > 0 {
      KeysAreIndependent(clock, steps, key, i - 1);
      var s, u := P.StateAt(clock, steps, i - 1), AloneAt(clock, steps, key, i - 1);
      if Concerns(s, steps[i - 1], key) {
        ConcerningStepIsIndependent(s, u, steps[i - 1], key);
      } else {
        OtherStepIsInvisible(s, u, steps[i - 1], key);
      }
    }
  }

  /** For channels free of ':' this separates (channel, idempotency key) pairs: a Send for one pair has the phase, and
      in the end the reply, that it has in a run where no Send for another pair ever takes the lock. */
  lemma SendsAreIndependent(clock: int, steps: seq<P.Step>, i: nat, c1: Channel, k1: string, c2: Channel,
          k2: string, p: P.Caller, q: P.Caller)
    requires i <= |steps| && ':' !in c1 && ':' !in c2 && (c1, k1) != (c2, k2)
    requires p in P.StateAt(clock, steps, i).callers && q in P.StateAt(clock, steps, i).callers
    requires P.StateAt(clock, steps, i).callers[p].claim.key == BuildCacheKey(c1, k1)
    requires P.StateAt(clock, steps, i).callers[q].claim.key == BuildCacheKey(c2, k2)
    ensures var alone := AloneAt(clock, steps, BuildCacheKey(c1, k1), i);
            && p in alone.callers && alone.callers[p] == P.StateAt(clock, steps, i).callers[p]
            && q in alone.callers && alone.callers[q].Stamped?
  {
    if BuildCacheKey(c1, k1) == BuildCacheKey(c2, k2) {
      BuildCacheKeyIsInjective(c1, k1, c2, k2);
    }
    KeysAreIndependent(clock, steps, BuildCacheKey(c1, k1), i);
  }
}
