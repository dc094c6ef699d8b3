/** Where the results come from that Sends return: over whole runs, from provider calls made for the same key. */
module Provenance {
  import opened Values
  import opened SendProtocol
  import T = ClaimTable

  /** At step j p's provider call for the key returns o. */
  ghost predicate Produces(clock: int, steps: seq<Step>, j: nat, p: Caller, key: T.Key, o: Outcome) {
    && j < |steps| && steps[j] == ProviderReturns(p, o)
    && p in StateAt(clock, steps, j).callers && StateAt(clock, steps, j).callers[p].Calling?
    && StateAt(clock, steps, j).callers[p].claim.key == key
  }

  /** Before step i p's own call returned o. */
  ghost predicate Own(clock: int, steps: seq<Step>, i: nat, p: Caller, key: T.Key, o: Outcome) {
    exists j: nat :: j < i && Produces(clock, steps, j, p, key, o)
  }

  /** Before step i some call returned r, with or without an error beside it. */
  ghost predicate Produced(clock: int, steps: seq<Step>, i: nat, key: T.Key, r: ResultValue) {
    exists p: Caller, o: Outcome :: o.result == Some(r) && Own(clock, steps, i, p, key, o)
  }

  ghost predicate NoOutsideSet(steps: seq<Step>, key: T.Key) {
    forall i | 0 <= i < |steps| :: !(steps[i].OutsideSet? && steps[i].key == key)
  }

  /** A Send that called its provider hands on, or is about to hand on, what that call returned; one that did not
      returns ErrSendInFlight, or a result some other call returned, with no error. */
  ghost predicate PhaseProduced(clock: int, steps: seq<Step>, i: nat, p: Caller, key: T.Key, ph: Phase) {
    match ph
    case Returned(_, _, _, o) => Own(clock, steps, i, p, key, o)
    case Lost(_, o) => Own(clock, steps, i, p, key, o)
    case Done(_, o, called) =>
      if called then Own(clock, steps, i, p, key, o)
      else o == IN_FLIGHT || (o.err.None? && o.result.Some? && Produced(clock, steps, i, key, o.result.value))
    case _ => true
  }

  ghost predicate TableProduced(clock: int, steps: seq<Step>, i: nat, key: T.Key)
    requires i <= |steps|
  {
    var t := StateAt(clock, steps, i).table;
    key in t && t[key].result.Some? ==> Produced(clock, steps, i, key, t[key].result.value)
  }

  lemma OwnLater(clock: int, steps: seq<Step>, i: nat, p: Caller, key: T.Key, o: Outcome)
    requires Own(clock, steps, i, p, key, o)
    ensures Own(clock, steps, i + 1, p, key, o)
  {
    var j: nat :| j < i && Produces(clock, steps, j, p, key, o);
    assert j < i + 1;
  }

  lemma ProducedLater(clock: int, steps: seq<Step>, i: nat, key: T.Key, r: ResultValue)
    requires Produced(clock, steps, i, key, r)
    ensures Produced(clock, steps, i + 1, key, r)
  {
    var p: Caller, o: Outcome :| o.result == Some(r) && Own(clock, steps, i, p, key, o);
    OwnLater(clock, steps, i, p, key, o);
  }

  lemma PhaseProducedLater(clock: int, steps: seq<Step>, i: nat, p: Caller, key: T.Key, ph: Phase)
    requires PhaseProduced(clock, steps, i, p, key, ph)
    ensures PhaseProduced(clock, steps, i + 1, p, key, ph)
  {
    match ph
    case Returned(_, _, _, o) => OwnLater(clock, steps, i, p, key, o);
    case Lost(_, o) => OwnLater(clock, steps, i, p, key, o);
    case Done(_, o, called) =>
      if called {
        OwnLater(clock, steps, i, p, key, o);
      } else if o != IN_FLIGHT {
        ProducedLater(clock, steps, i, key, o.result.value);
      }
    case _ =>
  }

  lemma StepKeepsTableProduced(clock: int, steps: seq<Step>, i: nat, key: T.Key)
    requires i < |steps| && NoOutsideSet(steps, key) && TableProduced(clock, steps, i, key)
    requires forall p | p in StateAt(clock, steps, i).callers && StateAt(clock, steps, i).callers[p].claim.key == key ::
               PhaseProduced(clock, steps, i, p, key, StateAt(clock, steps, i).callers[p])
    ensures TableProduced(clock, steps, i + 1, key)
  {
    var s, t := StateAt(clock, steps, i), StateAt(clock, steps, i + 1).table;
    if key in t && t[key].result.Some? {
      if key in s.table && s.table[key] == t[key] {
        ProducedLater(clock, steps, i, key, t[key].result.value);
      } else {
        var p := steps[i].p;
        assert PhaseProduced(clock, steps, i, p, key, s.callers[p]);
        OwnLater(clock, steps, i, p, key, s.callers[p].outcome);
      }
    }
  }

  lemma StepKeepsPhaseProduced(clock: int, steps: seq<Step>, i: nat, key: T.Key, p: Caller)
    requires i < |steps| && TableProduced(clock, steps, i, key)
    requires p in StateAt(clock, steps, i + 1).callers && StateAt(clock, steps, i + 1).callers[p].claim.key == key
    requires p in StateAt(clock, steps, i).callers ==>
               && StateAt(clock, steps, i).callers[p].claim.key == key
               && PhaseProduced(clock, steps, i, p, key, StateAt(clock, steps, i).callers[p])
    ensures PhaseProduced(clock, steps, i + 1, p, key, StateAt(clock, steps, i + 1).callers[p])
  {
    var s, s' := StateAt(clock, steps, i), StateAt(clock, steps, i + 1);
    if p in s.callers {
      PhaseProducedLater(clock, steps, i, p, key, s.callers[p]);
      if s'.callers[p] != s.callers[p] {
        match steps[i]
        case TakeLock(_) =>
          if key in s.table && s.table[key].result.Some? {
            ProducedLater(clock, steps, i, key, s.table[key].result.value);
          }
        case ProviderReturns(_, o) =>
          assert Produces(clock, steps, i, p, key, o);
        case _ =>
      }
    }
  }

  /** PROVENANCE. If nobody outside calls Set for the key, every result recorded under it, and every result a Send for
      it returns, was returned before by a provider call that some Send made for that key. */
  lemma {:induction false} ResultsComeFromCalls(clock: int, steps: seq<Step>, i: nat, key: T.Key)
    requires i <= |steps| && NoOutsideSet(steps, key)
    ensures TableProduced(clock, steps, i, key)
    ensures forall p | p in StateAt(clock, steps, i).callers && StateAt(clock, steps, i).callers[p].claim.key == key ::
              PhaseProduced(clock, steps, i, p, key, StateAt(clock, steps, i).callers[p])
  {
    if i > 0 {
      ResultsComeFromCalls(clock, steps, i - 1, key);
      StepKeepsTableProduced(clock, steps, i - 1, key);
      forall p | p in StateAt(clock, steps, i).callers && StateAt(clock, steps, i).callers[p].claim.key == key
        ensures PhaseProduced(clock, steps, i, p, key, StateAt(clock, steps, i).callers[p])
      {
        if p in StateAt(clock, steps, i - 1).callers {
          PhasesMoveForward(clock, steps, i - 1, i, p);
        }
        StepKeepsPhaseProduced(clock, steps, i - 1, key, p);
      }
    }
  }
}
