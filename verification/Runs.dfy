/** Putting runs together. */
module Runs {
  import opened Service

  lemma {:induction false} RunAppend(s: System, xs: seq<Action>, ys: seq<Action>)
    ensures Run(s, xs + ys) == Run(Run(s, xs), ys)
    decreases |ys|
  {
    hide Step;
    if ys == [] {
      assert xs + ys == xs;
    } else {
      var n := |ys| - 1;
      assert (xs + ys)[..|xs + ys| - 1] == xs + ys[..n] && (xs + ys)[|xs + ys| - 1] == ys[n];
      RunAppend(s, xs, ys[..n]);
    }
  }

  lemma RunOne(s: System, a: Action)
    ensures Run(s, [a]) == Step(s, a)
  {
    hide Step;
    assert [a][..0] == [];
  }

  /** A run that goes on is a run. */
  lemma ReachedAppend(ttl: int, actions: seq<Action>, more: seq<Action>)
    ensures Reached(ttl, actions + more) == Run(Reached(ttl, actions), more)
  {
    hide Run, Initial;
    RunAppend(Initial(ttl), actions, more);
  }

  lemma ReachedStep(ttl: int, actions: seq<Action>, a: Action)
    ensures Reached(ttl, actions + [a]) == Step(Reached(ttl, actions), a)
  {
    hide Step, Reached;
    ReachedAppend(ttl, actions, [a]);
    RunOne(Reached(ttl, actions), a);
  }

  predicate Only(actions: seq<Action>, a: Action) {
    forall b :: b in actions ==> b == a
  }

  /** The step, taken some number of times in a row, leads from one state to the other. */
  ghost predicate Leads(s: System, a: Action, s': System) {
    exists more :: Only(more, a) && Run(s, more) == s'
  }

  lemma LeadsTransitive(s: System, a: Action, s1: System, s2: System)
    requires Leads(s, a, s1) && Leads(s1, a, s2)
    ensures Leads(s, a, s2)
  {
    hide Run;
    var xs :| Only(xs, a) && Run(s, xs) == s1;
    var ys :| Only(ys, a) && Run(s1, ys) == s2;
    RunAppend(s, xs, ys);
    assert Only(xs + ys, a);
  }

  lemma LeadsNowhere(s: System, a: Action)
    ensures Leads(s, a, s)
  {
    hide Step;
    assert Only([], a) && Run(s, []) == s;
  }

  lemma LeadsOnce(s: System, a: Action, s': System)
    requires Step(s, a) == s'
    ensures Leads(s, a, s')
  {
    hide Run, Step;
    RunOne(s, a);
    assert Only([a], a);
  }

  /** What steps in a row lead to from a state reached is reached by the run that goes on with them. */
  lemma LeadsIsReached(ttl: int, actions: seq<Action>, first: Action, a: Action, s': System)
    requires Leads(Step(Reached(ttl, actions), first), a, s')
    ensures exists more :: Only(more, a) && Reached(ttl, actions + [first] + more) == s'
  {
    hide Step, Run;
    ReachedStep(ttl, actions, first);
    hide Reached;
    var more :| Only(more, a) && Run(Step(Reached(ttl, actions), first), more) == s';
    ReachedAppend(ttl, actions + [first], more);
  }

  /** Some further actions lead from one state to the other. */
  ghost predicate Continues(s: System, s': System) {
    exists more :: Run(s, more) == s'
  }

  lemma ContinuesTransitive(s: System, s1: System, s2: System)
    requires Continues(s, s1) && Continues(s1, s2)
    ensures Continues(s, s2)
  {
    hide Run;
    var xs :| Run(s, xs) == s1;
    var ys :| Run(s1, ys) == s2;
    RunAppend(s, xs, ys);
  }

  lemma StepContinues(s: System, a: Action, s1: System, s2: System)
    requires Step(s, a) == s1 && Continues(s1, s2)
    ensures Continues(s, s2)
  {
    hide Run, Step;
    RunOne(s, a);
    ContinuesTransitive(s, s1, s2);
  }

  lemma LeadsContinues(s: System, a: Action, s1: System, s2: System)
    requires Leads(s, a, s1) && Continues(s1, s2)
    ensures Continues(s, s2)
  {
    hide Run;
    var more :| Only(more, a) && Run(s, more) == s1;
    ContinuesTransitive(s, s1, s2);
  }

  lemma ContinuesHere(s: System)
    ensures Continues(s, s)
  {
    assert Run(s, []) == s;
  }

  lemma ContinuesIsReached(ttl: int, actions: seq<Action>, s': System)
    requires Continues(Reached(ttl, actions), s')
    ensures exists more :: Reached(ttl, actions + more) == s'
  {
    hide Run, Reached;
    var more :| Run(Reached(ttl, actions), more) == s';
    ReachedAppend(ttl, actions, more);
  }
}
