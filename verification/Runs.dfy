/** Runs of a state machine as lists of states and the events between them. */
module Runs {

  ghost predicate Trace<S(!new), E(!new)>(step: (S, E, S) -> bool, states: seq<S>, events: seq<E>) {
    && |states| == |events| + 1
    && forall i :: 0 <= i < |events| ==> StepAt(step, states, events, i)
  }

  ghost predicate StepAt<S(!new), E(!new)>(step: (S, E, S) -> bool, states: seq<S>, events: seq<E>, i: nat)
    requires i < |events| && |states| == |events| + 1
  {
    step(states[i], events[i], states[i + 1])
  }

  /** Some run leads from one state to the other. */
  ghost predicate Leads<S(!new), E(!new)>(step: (S, E, S) -> bool, s: S, t: S) {
    exists states, events :: Trace(step, states, events) && states[0] == s && states[|events|] == t
  }

  lemma LeadsNowhere<S(!new), E(!new)>(step: (S, E, S) -> bool, s: S)
    ensures Leads(step, s, s)
  {
    var states, events: seq<E> := [s], [];
    assert Trace(step, states, events) && states[0] == s && states[|events|] == s;
  }

  lemma LeadsOn<S(!new), E(!new)>(step: (S, E, S) -> bool, s: S, t: S, e: E, u: S)
    requires Leads(step, s, t) && step(t, e, u)
    ensures Leads(step, s, u)
  {
    var states, events :| Trace(step, states, events) && states[0] == s && states[|events|] == t;
    var more, es := states + [u], events + [e];
    forall i | 0 <= i < |es| ensures StepAt(step, more, es, i) {
      if i < |events| {
        assert StepAt(step, states, events, i);
      }
    }
    assert Trace(step, more, es) && more[0] == s && more[|es|] == u;
  }

  lemma LeadsStep<S(!new), E(!new)>(step: (S, E, S) -> bool, s: S, e: E, t: S)
    requires step(s, e, t)
    ensures Leads(step, s, t)
  {
    LeadsNowhere(step, s);
    LeadsOn(step, s, s, e, t);
  }

  lemma LeadsFurther<S(!new), E(!new)>(step: (S, E, S) -> bool, s: S, t: S, u: S)
    requires Leads(step, s, t) && Leads(step, t, u)
    ensures Leads(step, s, u)
  {
    var ss, es :| Trace(step, ss, es) && ss[0] == s && ss[|es|] == t;
    var ts, fs :| Trace(step, ts, fs) && ts[0] == t && ts[|fs|] == u;
    var more, events := ss + ts[1..], es + fs;
    forall i | 0 <= i < |events| ensures StepAt(step, more, events, i) {
      if i < |es| {
        assert StepAt(step, ss, es, i);
      } else {
        assert StepAt(step, ts, fs, i - |es|);
      }
    }
    assert Trace(step, more, events) && more[0] == s && more[|events|] == u;
  }

  /** The rest of a run after its first step is a run. */
  lemma TraceTail<S(!new), E(!new)>(step: (S, E, S) -> bool, states: seq<S>, events: seq<E>)
    requires Trace(step, states, events) && events != []
    ensures step(states[0], events[0], states[1]) && Trace(step, states[1..], events[1..])
  {
    assert StepAt(step, states, events, 0);
    var ss, es := states[1..], events[1..];
    forall i | 0 <= i < |es| ensures StepAt(step, ss, es, i) {
      assert StepAt(step, states, events, i + 1);
    }
  }

  lemma LeadsWider<S(!new), E(!new)>(step: (S, E, S) -> bool, wider: (S, E, S) -> bool, s: S, t: S)
    requires Leads(step, s, t) && forall a, e, b :: step(a, e, b) ==> wider(a, e, b)
    ensures Leads(wider, s, t)
  {
    var states, events :| Trace(step, states, events) && states[0] == s && states[|events|] == t;
    forall i | 0 <= i < |events| ensures StepAt(wider, states, events, i) {
      assert StepAt(step, states, events, i);
    }
    assert Trace(wider, states, events);
  }
}
