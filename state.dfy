/** The composite abstract state of State.h: a "global" component, an
    abstract stack and an abstract environment, merged independently. */
module States {
  import opened Lattice
  import opened Stacks
  import opened Environments
  import opened Wrappers

  /** The placeholder global component: holds nothing. */
  datatype DummyState = DummyState

  /** Merging two dummy states never reports a change. */
  function DummyMerge(self: DummyState, other: DummyState): (changed: bool)
    ensures !changed
  {
    false
  }

  /** An abstract state with the default (dummy) global component. */
  datatype AbstractState = AbstractState(globals: DummyState, stack: seq<AValue>, env: Env)

  /** The state built by the default constructor: empty stack, empty
      environment without a parent. */
  const EmptyState: AbstractState := AbstractState(DummyState, [], Env(map[], None))

  function Depth(s: AbstractState): nat
  {
    |s.stack|
  }

  /** The order on states: componentwise. */
  predicate StateLeq(a: AbstractState, b: AbstractState)
  {
    StackLeq(a.stack, b.stack) && EnvLeq(a.env, b.env)
  }

  /** `mergeWith`: merges the global component, the stack and the
      environment, each one whatever the others reported, and reports whether
      any of them changed. */
  function StateMerge(a: AbstractState, b: AbstractState): (r: (AbstractState, bool))
    requires Depth(a) == Depth(b)
    ensures Depth(r.0) == Depth(a)
    ensures r.1 <==> r.0 != a
    ensures StateLeq(a, r.0) && StateLeq(b, r.0)
    ensures !r.1 <==> StateLeq(b, a)
  {
    var globalChanged := DummyMerge(a.globals, b.globals);
    var (stack, stackChanged) := StackMerge(a.stack, b.stack);
    var (env, envChanged) := EnvMerge(a.env, b.env);
    EnvMergeIsUpperBound(a.env, b.env);
    StackNoChangeIffBelow(a.stack, b.stack);
    EnvNoChangeIffBelow(a.env, b.env);
    (AbstractState(a.globals, stack, env), envChanged || stackChanged || globalChanged)
  }

  /** The flag of a state merge is the OR of the flags of the stack merge
      and the environment merge, each part being merged whatever the others
      reported; the global component never adds a change. So a state merge
      reports a change exactly when the stack or the environment of `b` is
      not below that of `a`. */
  lemma StateMergeFlagIsComponentOr(a: AbstractState, b: AbstractState)
    requires Depth(a) == Depth(b)
    ensures var (m, changed) := StateMerge(a, b);
            && m == AbstractState(a.globals, StackMerge(a.stack, b.stack).0, EnvMerge(a.env, b.env).0)
            && changed == (StackMerge(a.stack, b.stack).1 || EnvMerge(a.env, b.env).1)
            && changed == (!StackLeq(b.stack, a.stack) || !EnvLeq(b.env, a.env))
  {
  }

  lemma StateLeqReflexive(a: AbstractState)
    ensures StateLeq(a, a)
  {
    StackLeqReflexive(a.stack);
    EnvLeqReflexive(a.env);
  }

  lemma StateLeqTransitive(a: AbstractState, b: AbstractState, c: AbstractState)
    requires StateLeq(a, b) && StateLeq(b, c)
    ensures StateLeq(a, c)
  {
    StackLeqTransitive(a.stack, b.stack, c.stack);
    EnvLeqTransitive(a.env, b.env, c.env);
  }

  /** Merging a state with itself reports no change. */
  lemma SelfMergeReportsNoChange(a: AbstractState)
    ensures !StateMerge(a, a).1
  {
    StateLeqReflexive(a);
  }

  /** Merging B into A and A into B gives the same state. */
  lemma StateMergeCommutes(a: AbstractState, b: AbstractState)
    requires Depth(a) == Depth(b)
    ensures StateMerge(a, b).0 == StateMerge(b, a).0
  {
    EnvMergeCommutes(a.env, b.env);
    forall i | 0 <= i < Depth(a) ensures Join(a.stack[i], b.stack[i]) == Join(b.stack[i], a.stack[i]) {
      JoinCommutes(a.stack[i], b.stack[i]);
    }
  }
}
