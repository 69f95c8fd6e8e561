/** What the forward and backward drivers share: the transfer function the
    dispatcher applies to the current state, the merge-point table, and the
    flows of states into merge points and into the final state. */
module Analyses {
  import opened Wrappers
  import opened States
  import opened Code

  /** The effect of dispatching one instruction on the current state. */
  type Transfer = (Instr, AbstractState) -> AbstractState

  /** What an analysis run is given: the code, the dispatcher's transfer
      function and the analysis' initial state. */
  datatype Ctx = Ctx(code: seq<Instr>, transfer: Transfer, init: AbstractState)

  /** The states stored at merge points, by position. */
  type Table = map<nat, AbstractState>

  /** A state flowing into the merge point at `point`, or into the final
      state of the analysis. */
  datatype Edge = Into(point: nat, state: AbstractState) | ToFinal(state: AbstractState)

  /** The target of the edge already holds (an upper bound of) its state. */
  predicate Covered(e: Edge, mp: Table, final: Option<AbstractState>)
  {
    match e
    case Into(l, s) => l in mp && StateLeq(s, mp[l])
    case ToFinal(s) => final.Some? && StateLeq(s, final.value)
  }

  predicate AllCovered(es: seq<Edge>, mp: Table, final: Option<AbstractState>)
  {
    forall i :: 0 <= i < |es| ==> Covered(es[i], mp, final)
  }

  /** A table only ever gains merge points and raises their states. */
  predicate Grows(mp: Table, mp': Table)
  {
    forall l :: l in mp ==> l in mp' && StateLeq(mp[l], mp'[l])
  }

  predicate FinalGrows(f: Option<AbstractState>, f': Option<AbstractState>)
  {
    f.Some? ==> f'.Some? && StateLeq(f.value, f'.value)
  }

  lemma GrowsReflexive(mp: Table, f: Option<AbstractState>)
    ensures Grows(mp, mp) && FinalGrows(f, f)
  {
    forall l | l in mp ensures StateLeq(mp[l], mp[l]) {
      StateLeqReflexive(mp[l]);
    }
    if f.Some? {
      StateLeqReflexive(f.value);
    }
  }

  /** What is covered stays covered while the table and the final state grow. */
  lemma CoverageIsMonotone(es: seq<Edge>, mp: Table, f: Option<AbstractState>, mp': Table, f': Option<AbstractState>)
    requires AllCovered(es, mp, f) && Grows(mp, mp') && FinalGrows(f, f')
    ensures AllCovered(es, mp', f')
  {
    forall i | 0 <= i < |es| ensures Covered(es[i], mp', f') {
      match es[i]
      case Into(l, s) => StateLeqTransitive(s, mp[l], mp'[l]);
      case ToFinal(s) => StateLeqTransitive(s, f.value, f'.value);
    }
  }

  /** Covering one more flow. */
  lemma CoveredAppend(es: seq<Edge>, e: Edge, mp: Table, f: Option<AbstractState>)
    requires AllCovered(es, mp, f) && Covered(e, mp, f)
    ensures AllCovered(es + [e], mp, f)
  {
    assert forall i :: 0 <= i < |es| ==> (es + [e])[i] == es[i];
  }

  /** `shouldJump` / `shouldFollowJumpFrom`: the first state to reach a
      merge point is stored and reported as new; later ones are merged into
      the stored state, reporting whether it changed. */
  function StoreOrMerge(mp: Table, l: nat, s: AbstractState): (r: (Table, bool))
    requires l in mp ==> Depth(mp[l]) == Depth(s)
    ensures r.0.Keys == mp.Keys + {l}
    ensures Grows(mp, r.0) && StateLeq(s, r.0[l]) && Depth(r.0[l]) == Depth(s)
    ensures forall k :: k in mp && k != l ==> r.0[k] == mp[k]
    ensures l !in mp ==> r.1 && r.0[l] == s
    ensures !r.1 <==> l in mp && StateLeq(s, mp[l])
    ensures !r.1 ==> r.0 == mp
  {
    if l !in mp then
      StateLeqReflexive(s);
      GrowsReflexive(mp, None);
      (mp[l := s], true)
    else
      var (m, changed) := StateMerge(mp[l], s);
      GrowsReflexive(mp, None);
      assert !changed ==> mp[l := m] == mp;
      (mp[l := m], changed)
  }

  /** The merge-point rule of both drivers (at a label going forward, at a
      jump going backward), given the table and the incoming state, `None`
      when the position was just taken off the worklist: a first visit
      stores the incoming state and goes on with it; without an incoming
      state the stored one is taken over; otherwise the incoming state is
      merged in and the branch goes on from the merged state only when it
      changed.  The result is the new table and the state the branch goes
      on with, `None` when it ends there. */
  function MergePointRule(mp: Table, l: nat, incoming: Option<AbstractState>): (r: (Table, Option<AbstractState>))
    requires l in mp || incoming.Some?
    requires l in mp && incoming.Some? ==> Depth(mp[l]) == Depth(incoming.value)
    ensures r.0.Keys == mp.Keys + {l} && Grows(mp, r.0)
    ensures forall k :: k in mp && k != l ==> r.0[k] == mp[k]
    ensures incoming.Some? ==> StateLeq(incoming.value, r.0[l]) && r.0 == StoreOrMerge(mp, l, incoming.value).0
    ensures incoming.None? ==> r.0 == mp
    ensures r.1.Some? ==> r.1.value == r.0[l]
    ensures r.1.None? <==> l in mp && incoming.Some? && StateLeq(incoming.value, mp[l])
    ensures r.1.None? ==> r.0 == mp
  {
    if incoming.None? then
      GrowsReflexive(mp, None);
      (mp, Some(mp[l]))
    else
      var (mp', changed) := StoreOrMerge(mp, l, incoming.value);
      (mp', if changed then Some(mp'[l]) else None)
  }

  /** `shouldJump` (or `shouldFollowJumpFrom`) for a state `s` reaching
      merge point `t`, followed by putting `t` at the front of the worklist
      when it holds: `t` is queued exactly when its stored state was
      missing or did not already cover `s`. */
  function Enqueue(mp: Table, q: seq<nat>, t: nat, s: AbstractState): (r: (Table, seq<nat>))
    requires t in mp ==> Depth(mp[t]) == Depth(s)
    ensures r.0 == StoreOrMerge(mp, t, s).0
    ensures r.1 == q <==> t in mp && StateLeq(s, mp[t])
    ensures r.1 != q ==> r.1 == [t] + q
  {
    var (mp', jump) := StoreOrMerge(mp, t, s);
    assert |[t] + q| != |q|;
    (mp', if jump then [t] + q else q)
  }

  lemma GrowsTransitive(mp: Table, mp': Table, mp'': Table)
    requires Grows(mp, mp') && Grows(mp', mp'')
    ensures Grows(mp, mp'')
  {
    forall l | l in mp ensures l in mp'' && StateLeq(mp[l], mp''[l]) {
      StateLeqTransitive(mp[l], mp'[l], mp''[l]);
    }
  }

  /** Folding a state into the final state: the first one is kept, later
      ones are merged in. */
  function FoldFinal(final: Option<AbstractState>, s: AbstractState): (r: AbstractState)
    requires final.Some? ==> Depth(final.value) == Depth(s)
    ensures StateLeq(s, r) && FinalGrows(final, Some(r)) && Depth(r) == Depth(s)
    ensures final.None? ==> r == s
  {
    if final.None? then
      StateLeqReflexive(s);
      s
    else
      StateMerge(final.value, s).0
  }
}
