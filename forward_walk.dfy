/** The forward driver's semantics on values: the flows a branch of the
    worklist walk produces, the post-fixpoint the driver converges to, the
    invariant of the walk and the retrieval replay of the indexed variant. */
module ForwardWalks {
  import opened Wrappers
  import opened States
  import opened Code
  import opened Analyses
  import opened Samples

  /** The flows produced by walking from position `p` with state `s`, `s`
      being the state after any merge at `p`: dispatch, then follow a jump
      to its target label, end at an exit, or fall through to the next
      instruction, stopping at the next label. */
  function Walk(code: seq<Instr>, T: Transfer, p: nat, s: AbstractState): seq<Edge>
    requires NoFallOffEnd(code) && p < |code|
    decreases |code| - p, 0
  {
    var s' := T(code[p], s);
    match code[p]
    case UncondJmp(t) => [Into(t, s')]
    case CondJmp(t) => [Into(t, s')] + Cont(code, T, p + 1, s')
    case Exit => [ToFinal(s')]
    case _ => Cont(code, T, p + 1, s')
  }

  /** The flows produced by arriving at `p` with state `s`: into the merge
      point if `p` is a label, otherwise the walk goes on. */
  function Cont(code: seq<Instr>, T: Transfer, p: nat, s: AbstractState): seq<Edge>
    requires NoFallOffEnd(code) && p < |code|
    decreases |code| - p, 1
  {
    if code[p].Label? then [Into(p, s)] else Walk(code, T, p, s)
  }

  /** The stack depth the state has at each position, and at exits: the
      stack merges demand equal depths wherever states meet. */
  ghost predicate StepBalanced(code: seq<Instr>, h: seq<nat>, hExit: nat, p: nat, s': AbstractState)
    requires |h| == |code| && p < |code|
  {
    match code[p]
    case UncondJmp(t) => t < |h| && Depth(s') == h[t]
    case CondJmp(t) => t < |h| && p + 1 < |h| && Depth(s') == h[t] && Depth(s') == h[p + 1]
    case Exit => Depth(s') == hExit
    case _ => p + 1 < |h| && Depth(s') == h[p + 1]
  }

  /** What the forward driver needs of its input: jumps go to labels, the
      last instruction does not fall off the end, and the transfer function
      keeps to the depths `h` (and `hExit` at exits). */
  ghost predicate WellFormed(c: Ctx, h: seq<nat>, hExit: nat)
  {
    && JumpsToLabels(c.code)
    && NoFallOffEnd(c.code)
    && |h| == |c.code|
    && Depth(c.init) == h[0]
    && forall p: nat, s :: p < |c.code| && Depth(s) == h[p] ==>
         StepBalanced(c.code, h, hExit, p, c.transfer(c.code[p], s))
  }

  /** The flows of the walk from the entry point with the initial state. */
  function EntryEdges(c: Ctx): seq<Edge>
    requires NoFallOffEnd(c.code)
  {
    Cont(c.code, c.transfer, 0, c.init)
  }

  /** The walk from the stored label `l` is covered by the table. */
  ghost predicate Settled(c: Ctx, mp: Table, final: Option<AbstractState>, l: nat)
    requires NoFallOffEnd(c.code)
  {
    l in mp && l < |c.code| && AllCovered(Walk(c.code, c.transfer, l, mp[l]), mp, final)
  }

  /** A post-fixpoint: merge points are labels, and every flow from the
      entry and from every stored label is already covered by the table and
      the final state. */
  ghost predicate PostFixpoint(c: Ctx, mp: Table, final: Option<AbstractState>)
    requires NoFallOffEnd(c.code)
  {
    && AllCovered(EntryEdges(c), mp, final)
    && forall l :: l in mp ==> l < |c.code| && c.code[l].Label? && Settled(c, mp, final, l)
  }

  // ---------------------------------------------------------------------
  // The invariant of the worklist walk.

  /** Where the branch being walked started: at the entry point, or at a
      label with the state stored there when the walk left it. */
  datatype Origin = FromEntry | FromLabel(at: nat, state: AbstractState)

  function OriginEdges(c: Ctx, o: Origin): seq<Edge>
    requires NoFallOffEnd(c.code) && (o.FromLabel? ==> o.at < |c.code|)
  {
    match o
    case FromEntry => EntryEdges(c)
    case FromLabel(l, s) => Walk(c.code, c.transfer, l, s)
  }

  /** Stored states sit at labels with the depth of their position. */
  ghost predicate Tables(c: Ctx, h: seq<nat>, hExit: nat, mp: Table, final: Option<AbstractState>)
  {
    && |h| == |c.code|
    && (forall l :: l in mp ==> l < |c.code| && c.code[l].Label? && Depth(mp[l]) == h[l])
    && (final.Some? ==> Depth(final.value) == hExit)
  }

  /** Every enqueued label already has a stored state. */
  ghost predicate QueuedAreStored(mp: Table, q: seq<nat>)
  {
    forall i :: 0 <= i < |q| ==> q[i] in mp
  }

  /** Every stored label is enqueued, settled, or the one being walked. */
  ghost predicate Pending(c: Ctx, mp: Table, final: Option<AbstractState>, q: seq<nat>, walked: Option<nat>)
    requires NoFallOffEnd(c.code)
  {
    forall l :: l in mp ==> l in q || walked == Some(l) || Settled(c, mp, final, l)
  }

  /** Between branches: no branch is being walked. */
  ghost predicate Idle(c: Ctx, h: seq<nat>, hExit: nat, mp: Table, final: Option<AbstractState>, q: seq<nat>)
    requires NoFallOffEnd(c.code)
  {
    && Tables(c, h, hExit, mp, final)
    && QueuedAreStored(mp, q)
    && AllCovered(EntryEdges(c), mp, final)
    && Pending(c, mp, final, q, None)
  }

  /** Label `p` has just been taken off the queue, with no current state. */
  ghost predicate Resuming(c: Ctx, h: seq<nat>, hExit: nat, mp: Table, final: Option<AbstractState>, q: seq<nat>, p: nat)
    requires NoFallOffEnd(c.code)
  {
    && Tables(c, h, hExit, mp, final)
    && QueuedAreStored(mp, q)
    && p in mp
    && AllCovered(EntryEdges(c), mp, final)
    && Pending(c, mp, final, q, Some(p))
  }

  /** A branch from `origin` is at `p` with state `s`: the flows it produced
      so far (`done`) are covered, and `rest` are the ones still to come. */
  ghost predicate Walking(c: Ctx, h: seq<nat>, hExit: nat, mp: Table, final: Option<AbstractState>, q: seq<nat>,
                          p: nat, s: AbstractState, origin: Origin, done: seq<Edge>, rest: seq<Edge>)
    requires NoFallOffEnd(c.code)
  {
    && Tables(c, h, hExit, mp, final)
    && QueuedAreStored(mp, q)
    && p < |c.code| && Depth(s) == h[p]
    && (origin.FromLabel? ==> origin.at in mp && (mp[origin.at] == origin.state || origin.at in q))
    && OriginEdges(c, origin) == done + rest
    && AllCovered(done, mp, final)
    && (origin.FromEntry? || AllCovered(EntryEdges(c), mp, final))
    && Pending(c, mp, final, q, if origin.FromLabel? then Some(origin.at) else None)
  }

  lemma SettledIsMonotone(c: Ctx, mp: Table, f: Option<AbstractState>, mp': Table, f': Option<AbstractState>, l: nat)
    requires NoFallOffEnd(c.code) && Settled(c, mp, f, l)
    requires Grows(mp, mp') && FinalGrows(f, f') && l in mp' && mp'[l] == mp[l]
    ensures Settled(c, mp', f', l)
  {
    CoverageIsMonotone(Walk(c.code, c.transfer, l, mp[l]), mp, f, mp', f');
  }

  /** Pending survives a step that grows the tables, keeps what was queued,
      and queues every label whose stored state changed. */
  lemma PendingKept(c: Ctx, mp: Table, f: Option<AbstractState>, q: seq<nat>, x: Option<nat>,
                    mp': Table, f': Option<AbstractState>, q': seq<nat>, x': Option<nat>)
    requires NoFallOffEnd(c.code) && Pending(c, mp, f, q, x)
    requires Grows(mp, mp') && FinalGrows(f, f')
    requires forall l :: l in q ==> l in q'
    requires forall l :: l in mp' ==> (l in mp && mp'[l] == mp[l]) || l in q' || x' == Some(l)
    requires x.Some? && x.value in mp' ==> x.value in q' || x' == x || Settled(c, mp', f', x.value)
    ensures Pending(c, mp', f', q', x')
  {
    forall l | l in mp' ensures l in q' || x' == Some(l) || Settled(c, mp', f', l) {
      if l in mp && mp'[l] == mp[l] && l !in q' && x' != Some(l) {
        if x != Some(l) {
          SettledIsMonotone(c, mp, f, mp', f', l);
        }
      }
    }
  }

  /** When a branch ends, its origin is settled or queued again. */
  lemma OriginSettles(c: Ctx, mp: Table, f: Option<AbstractState>, q: seq<nat>, origin: Origin)
    requires NoFallOffEnd(c.code)
    requires origin.FromLabel? ==> origin.at in mp && origin.at < |c.code| && (mp[origin.at] == origin.state || origin.at in q)
    requires AllCovered(OriginEdges(c, origin), mp, f)
    ensures origin.FromLabel? ==> origin.at in q || Settled(c, mp, f, origin.at)
    ensures origin.FromEntry? ==> AllCovered(EntryEdges(c), mp, f)
  {
  }

  // Transitions of the walk.

  lemma StartWalk(c: Ctx, h: seq<nat>, hExit: nat)
    requires WellFormed(c, h, hExit)
    ensures Walking(c, h, hExit, map[], None, [], 0, c.init, FromEntry, [], EntryEdges(c))
  {
    assert EntryEdges(c) == [] + EntryEdges(c);
  }

  lemma TakeFromQueue(c: Ctx, h: seq<nat>, hExit: nat, mp: Table, f: Option<AbstractState>, q: seq<nat>)
    requires NoFallOffEnd(c.code) && Idle(c, h, hExit, mp, f, q) && |q| > 0
    ensures Resuming(c, h, hExit, mp, f, q[1..], q[0])
  {
    assert q[0] in mp;
    forall l | l in mp ensures l in q[1..] || Some(q[0]) == Some(l) || Settled(c, mp, f, l) {
      if l in q && l != q[0] {
        var i :| 0 <= i < |q| && q[i] == l;
        assert q[1..][i - 1] == l;
      }
    }
  }

  /** At a label reached from the queue: take over its stored state. */
  lemma AdoptStored(c: Ctx, h: seq<nat>, hExit: nat, mp: Table, f: Option<AbstractState>, q: seq<nat>, p: nat)
    requires NoFallOffEnd(c.code) && Resuming(c, h, hExit, mp, f, q, p)
    ensures Walking(c, h, hExit, mp, f, q, p, mp[p], FromLabel(p, mp[p]), [], Walk(c.code, c.transfer, p, mp[p]))
  {
    BeginAtLabel(c, h, hExit, mp, f, q, p, mp[p]);
  }

  /** Storing a state of the right depth at a label keeps the tables in shape. */
  lemma StoreKeepsTables(c: Ctx, h: seq<nat>, hExit: nat, mp: Table, f: Option<AbstractState>, q: seq<nat>,
                         mp': Table, p: nat)
    requires Tables(c, h, hExit, mp, f) && QueuedAreStored(mp, q)
    requires p < |c.code| && c.code[p].Label? && mp'.Keys == mp.Keys + {p} && Depth(mp'[p]) == h[p]
    requires forall l :: l in mp && l != p ==> mp'[l] == mp[l]
    ensures Tables(c, h, hExit, mp', f) && QueuedAreStored(mp', q)
  {
  }

  /** A branch whose last flow `e` is now covered ends: its origin is
      settled or queued again (or walked anew as `x'`), and every stored
      label stays pending. */
  lemma BranchEnds(c: Ctx, h: seq<nat>, hExit: nat, mp: Table, f: Option<AbstractState>, q: seq<nat>,
                   p: nat, s: AbstractState, origin: Origin, done: seq<Edge>, e: Edge,
                   mp': Table, f': Option<AbstractState>, q': seq<nat>, x': Option<nat>)
    requires NoFallOffEnd(c.code)
    requires Walking(c, h, hExit, mp, f, q, p, s, origin, done, [e])
    requires Covered(e, mp', f') && Grows(mp, mp') && FinalGrows(f, f') && forall l :: l in q ==> l in q'
    requires origin.FromLabel? ==> origin.at in q' || x' == Some(origin.at) || mp'[origin.at] == mp[origin.at]
    requires forall l :: l in mp' ==> (l in mp && mp'[l] == mp[l]) || l in q' || x' == Some(l)
    ensures AllCovered(EntryEdges(c), mp', f') && Pending(c, mp', f', q', x')
  {
    CoverageIsMonotone(done, mp, f, mp', f');
    assert AllCovered(OriginEdges(c, origin), mp', f');
    if origin.FromEntry? {
      OriginSettles(c, mp', f', q', origin);
    } else {
      CoverageIsMonotone(EntryEdges(c), mp, f, mp', f');
      if origin.at !in q' && x' != Some(origin.at) {
        OriginSettles(c, mp', f', q', origin);
      }
    }
    PendingKept(c, mp, f, q, if origin.FromLabel? then Some(origin.at) else None, mp', f', q', x');
  }

  /** A branch goes on past its covered flow `e`, to position `p'` with
      state `s'`. */
  lemma BranchGoesOn(c: Ctx, h: seq<nat>, hExit: nat, mp: Table, f: Option<AbstractState>, q: seq<nat>,
                     p: nat, s: AbstractState, origin: Origin, done: seq<Edge>, e: Edge, rest: seq<Edge>,
                     mp': Table, q': seq<nat>, p': nat, s': AbstractState)
    requires NoFallOffEnd(c.code)
    requires Walking(c, h, hExit, mp, f, q, p, s, origin, done, [e] + rest)
    requires Covered(e, mp', f) && Grows(mp, mp') && forall l :: l in q ==> l in q'
    requires Tables(c, h, hExit, mp', f) && QueuedAreStored(mp', q') && p' < |c.code| && Depth(s') == h[p']
    requires forall l :: l in mp' ==> (l in mp && mp'[l] == mp[l]) || l in q'
    ensures Walking(c, h, hExit, mp', f, q', p', s', origin, done + [e], rest)
  {
    GrowsReflexive(mp, f);
    CoverageIsMonotone(done, mp, f, mp', f);
    assert OriginEdges(c, origin) == (done + [e]) + rest;
    if origin.FromLabel? {
      CoverageIsMonotone(EntryEdges(c), mp, f, mp', f);
    }
    var x := if origin.FromLabel? then Some(origin.at) else None;
    PendingKept(c, mp, f, q, x, mp', f, q', x);
  }

  /** Entering a label the branch flows into: the branch so far ends with a
      covered flow into the label, and a branch from the label begins. */
  lemma EnterLabel(c: Ctx, h: seq<nat>, hExit: nat, mp: Table, f: Option<AbstractState>, q: seq<nat>,
                   p: nat, s: AbstractState, origin: Origin, done: seq<Edge>, mp': Table, s': AbstractState)
    requires NoFallOffEnd(c.code) && p < |c.code| && c.code[p].Label?
    requires Walking(c, h, hExit, mp, f, q, p, s, origin, done, Cont(c.code, c.transfer, p, s))
    requires Grows(mp, mp') && mp'.Keys == mp.Keys + {p} && StateLeq(s, mp'[p]) && mp'[p] == s'
    requires forall l :: l in mp && l != p ==> mp'[l] == mp[l]
    requires Depth(s') == h[p]
    ensures Walking(c, h, hExit, mp', f, q, p, s', FromLabel(p, s'), [], Walk(c.code, c.transfer, p, s'))
  {
    BranchEndsAtLabel(c, h, hExit, mp, f, q, p, s, origin, done, mp');
    BeginAtLabel(c, h, hExit, mp', f, q, p, s');
  }

  lemma BranchEndsAtLabel(c: Ctx, h: seq<nat>, hExit: nat, mp: Table, f: Option<AbstractState>, q: seq<nat>,
                          p: nat, s: AbstractState, origin: Origin, done: seq<Edge>, mp': Table)
    requires NoFallOffEnd(c.code) && p < |c.code| && c.code[p].Label?
    requires Walking(c, h, hExit, mp, f, q, p, s, origin, done, Cont(c.code, c.transfer, p, s))
    requires Grows(mp, mp') && mp'.Keys == mp.Keys + {p} && StateLeq(s, mp'[p]) && Depth(mp'[p]) == h[p]
    requires forall l :: l in mp && l != p ==> mp'[l] == mp[l]
    ensures Tables(c, h, hExit, mp', f) && QueuedAreStored(mp', q)
    ensures AllCovered(EntryEdges(c), mp', f) && Pending(c, mp', f, q, Some(p))
  {
    GrowsReflexive(mp, f);
    StoreKeepsTables(c, h, hExit, mp, f, q, mp', p);
    assert Cont(c.code, c.transfer, p, s) == [Into(p, s)];
    BranchEnds(c, h, hExit, mp, f, q, p, s, origin, done, Into(p, s), mp', f, q, Some(p));
  }

  lemma BeginAtLabel(c: Ctx, h: seq<nat>, hExit: nat, mp: Table, f: Option<AbstractState>, q: seq<nat>, p: nat, s: AbstractState)
    requires NoFallOffEnd(c.code) && p < |c.code|
    requires Tables(c, h, hExit, mp, f) && QueuedAreStored(mp, q) && p in mp && mp[p] == s && Depth(s) == h[p]
    requires AllCovered(EntryEdges(c), mp, f) && Pending(c, mp, f, q, Some(p))
    ensures Walking(c, h, hExit, mp, f, q, p, s, FromLabel(p, s), [], Walk(c.code, c.transfer, p, s))
  {
    assert Walk(c.code, c.transfer, p, s) == [] + Walk(c.code, c.transfer, p, s);
  }

  /** Entering a label whose stored state already covers the branch: the
      branch is abandoned. */
  lemma AbandonAtLabel(c: Ctx, h: seq<nat>, hExit: nat, mp: Table, f: Option<AbstractState>, q: seq<nat>,
                       p: nat, s: AbstractState, origin: Origin, done: seq<Edge>)
    requires NoFallOffEnd(c.code) && p < |c.code| && c.code[p].Label?
    requires Walking(c, h, hExit, mp, f, q, p, s, origin, done, Cont(c.code, c.transfer, p, s))
    requires p in mp && StateLeq(s, mp[p])
    ensures Idle(c, h, hExit, mp, f, q)
  {
    GrowsReflexive(mp, f);
    BranchEnds(c, h, hExit, mp, f, q, p, s, origin, done, Into(p, s), mp, f, q, None);
  }

  /** The depth discipline at one position. */
  lemma Balanced(c: Ctx, h: seq<nat>, hExit: nat, p: nat, s: AbstractState)
    requires WellFormed(c, h, hExit) && p < |c.code| && Depth(s) == h[p]
    ensures StepBalanced(c.code, h, hExit, p, c.transfer(c.code[p], s))
  {
  }

  /** Dispatching an instruction that falls through to the next one. */
  lemma StepToNext(c: Ctx, h: seq<nat>, hExit: nat, mp: Table, f: Option<AbstractState>, q: seq<nat>,
                   p: nat, s: AbstractState, origin: Origin, done: seq<Edge>)
    requires NoFallOffEnd(c.code) && |h| == |c.code| && p < |c.code|
    requires StepBalanced(c.code, h, hExit, p, c.transfer(c.code[p], s))
    requires Walking(c, h, hExit, mp, f, q, p, s, origin, done, Walk(c.code, c.transfer, p, s))
    requires c.code[p].Label? || c.code[p].Plain?
    ensures p + 1 < |c.code|
    ensures Walking(c, h, hExit, mp, f, q, p + 1, c.transfer(c.code[p], s), origin, done,
                    Cont(c.code, c.transfer, p + 1, c.transfer(c.code[p], s)))
  {
  }

  /** `shouldJump` stores or merges the flow into the jump's target and
      queues the target when its state is new or changed: the queue keeps
      to stored labels and the tables stay in shape. */
  lemma JumpKeepsTables(c: Ctx, h: seq<nat>, hExit: nat, mp: Table, f: Option<AbstractState>, q: seq<nat>,
                        t: nat, s': AbstractState)
    requires Tables(c, h, hExit, mp, f) && QueuedAreStored(mp, q)
    requires t < |c.code| && c.code[t].Label? && Depth(s') == h[t]
    ensures t in mp ==> Depth(mp[t]) == Depth(s')
    ensures var (mp', jump) := StoreOrMerge(mp, t, s');
            var q' := if jump then [t] + q else q;
            && Tables(c, h, hExit, mp', f) && QueuedAreStored(mp', q')
            && (forall l :: l in q ==> l in q')
            && (forall l :: l in mp' ==> (l in mp && mp'[l] == mp[l]) || l in q')
  {
    var (mp', jump) := StoreOrMerge(mp, t, s');
    var q' := if jump then [t] + q else q;
    StoreKeepsTables(c, h, hExit, mp, f, q, mp', t);
    forall i | 0 <= i < |q'| ensures q'[i] in mp' {
      if jump && i > 0 {
        assert q'[i] == q[i - 1];
      }
    }
  }

  /** The stored state at a jump's target, if any, has the depth the jump
      carries there. */
  lemma JumpTargetDepth(c: Ctx, h: seq<nat>, hExit: nat, mp: Table, f: Option<AbstractState>,
                        p: nat, s': AbstractState)
    requires JumpsToLabels(c.code) && |h| == |c.code| && p < |c.code| && IsJmp(c.code[p])
    requires Tables(c, h, hExit, mp, f) && StepBalanced(c.code, h, hExit, p, s')
    ensures c.code[p].target in mp ==> Depth(mp[c.code[p].target]) == Depth(s')
  {
  }

  /** Dispatching an unconditional jump: after `shouldJump` (the table and
      worklist `mp'`, `q'`) the branch is over. */
  lemma StepUncondJump(c: Ctx, h: seq<nat>, hExit: nat, mp: Table, f: Option<AbstractState>, q: seq<nat>,
                       p: nat, s: AbstractState, origin: Origin, done: seq<Edge>,
                       mp': Table, jump: bool, q': seq<nat>)
    requires NoFallOffEnd(c.code) && JumpsToLabels(c.code) && |h| == |c.code| && p < |c.code|
    requires StepBalanced(c.code, h, hExit, p, c.transfer(c.code[p], s))
    requires Walking(c, h, hExit, mp, f, q, p, s, origin, done, Walk(c.code, c.transfer, p, s))
    requires c.code[p].UncondJmp?
    requires var t := c.code[p].target;
             && (t in mp ==> Depth(mp[t]) == Depth(c.transfer(c.code[p], s)))
             && (mp', jump) == StoreOrMerge(mp, t, c.transfer(c.code[p], s))
             && q' == if jump then [t] + q else q
    ensures Idle(c, h, hExit, mp', f, q')
  {
    var t := c.code[p].target;
    var s' := c.transfer(c.code[p], s);
    JumpKeepsTables(c, h, hExit, mp, f, q, t, s');
    GrowsReflexive(mp, f);
    BranchEnds(c, h, hExit, mp, f, q, p, s, origin, done, Into(t, s'), mp', f, q', None);
  }

  /** Dispatching a conditional jump: after `shouldJump` (the table and
      worklist `mp'`, `q'`) the branch goes on with the next instruction. */
  lemma StepCondJump(c: Ctx, h: seq<nat>, hExit: nat, mp: Table, f: Option<AbstractState>, q: seq<nat>,
                     p: nat, s: AbstractState, origin: Origin, done: seq<Edge>,
                     mp': Table, jump: bool, q': seq<nat>)
    requires NoFallOffEnd(c.code) && JumpsToLabels(c.code) && |h| == |c.code| && p < |c.code|
    requires StepBalanced(c.code, h, hExit, p, c.transfer(c.code[p], s))
    requires Walking(c, h, hExit, mp, f, q, p, s, origin, done, Walk(c.code, c.transfer, p, s))
    requires c.code[p].CondJmp?
    requires var t := c.code[p].target;
             && (t in mp ==> Depth(mp[t]) == Depth(c.transfer(c.code[p], s)))
             && (mp', jump) == StoreOrMerge(mp, t, c.transfer(c.code[p], s))
             && q' == if jump then [t] + q else q
    ensures p + 1 < |c.code|
    ensures var s' := c.transfer(c.code[p], s);
            Walking(c, h, hExit, mp', f, q', p + 1, s', origin, done + [Into(c.code[p].target, s')],
                    Cont(c.code, c.transfer, p + 1, s'))
  {
    var t := c.code[p].target;
    var s' := c.transfer(c.code[p], s);
    JumpKeepsTables(c, h, hExit, mp, f, q, t, s');
    BranchGoesOn(c, h, hExit, mp, f, q, p, s, origin, done, Into(t, s'), Cont(c.code, c.transfer, p + 1, s'),
                 mp', q', p + 1, s');
  }

  /** Dispatching an exit: the state is folded into the final state and the
      branch ends. */
  lemma StepExit(c: Ctx, h: seq<nat>, hExit: nat, mp: Table, f: Option<AbstractState>, q: seq<nat>,
                 p: nat, s: AbstractState, origin: Origin, done: seq<Edge>)
    requires NoFallOffEnd(c.code) && |h| == |c.code| && p < |c.code|
    requires StepBalanced(c.code, h, hExit, p, c.transfer(c.code[p], s))
    requires Walking(c, h, hExit, mp, f, q, p, s, origin, done, Walk(c.code, c.transfer, p, s))
    requires c.code[p].Exit?
    ensures f.Some? ==> Depth(f.value) == Depth(c.transfer(c.code[p], s))
    ensures Idle(c, h, hExit, mp, Some(FoldFinal(f, c.transfer(c.code[p], s))), q)
  {
    var s' := c.transfer(c.code[p], s);
    var f' := Some(FoldFinal(f, s'));
    GrowsReflexive(mp, f);
    BranchEnds(c, h, hExit, mp, f, q, p, s, origin, done, ToFinal(s'), mp, f', q, None);
  }

  /** At a label with no stored state: the incoming state is stored and the
      walk goes on from it. */
  lemma StoreAtLabel(c: Ctx, h: seq<nat>, hExit: nat, mp: Table, f: Option<AbstractState>, q: seq<nat>,
                     p: nat, s: AbstractState, origin: Origin, done: seq<Edge>)
    requires NoFallOffEnd(c.code) && p < |c.code| && c.code[p].Label? && p !in mp
    requires Walking(c, h, hExit, mp, f, q, p, s, origin, done, Cont(c.code, c.transfer, p, s))
    ensures Walking(c, h, hExit, mp[p := s], f, q, p, s, FromLabel(p, s), [], Walk(c.code, c.transfer, p, s))
  {
    StateLeqReflexive(s);
    GrowsReflexive(mp, f);
    EnterLabel(c, h, hExit, mp, f, q, p, s, origin, done, mp[p := s], s);
  }

  /** At a label with a stored state: the incoming state is merged in; if
      the stored state changed the walk goes on from it, otherwise the
      branch is abandoned. */
  lemma MergeAtLabel(c: Ctx, h: seq<nat>, hExit: nat, mp: Table, f: Option<AbstractState>, q: seq<nat>,
                     p: nat, s: AbstractState, origin: Origin, done: seq<Edge>)
    requires NoFallOffEnd(c.code) && p < |c.code| && c.code[p].Label? && p in mp
    requires Walking(c, h, hExit, mp, f, q, p, s, origin, done, Cont(c.code, c.transfer, p, s))
    ensures Depth(mp[p]) == Depth(s)
    ensures var (m, changed) := StateMerge(mp[p], s);
            && (changed ==> Walking(c, h, hExit, mp[p := m], f, q, p, m, FromLabel(p, m), [], Walk(c.code, c.transfer, p, m)))
            && (!changed ==> Idle(c, h, hExit, mp[p := m], f, q))
  {
    var (m, changed) := StateMerge(mp[p], s);
    GrowsReflexive(mp, f);
    if changed {
      EnterLabel(c, h, hExit, mp, f, q, p, s, origin, done, mp[p := m], m);
    } else {
      assert mp[p := m] == mp;
      AbandonAtLabel(c, h, hExit, mp, f, q, p, s, origin, done);
    }
  }

  /** An empty queue between branches means the tables are a post-fixpoint. */
  lemma IdleAtEmptyQueue(c: Ctx, h: seq<nat>, hExit: nat, mp: Table, f: Option<AbstractState>)
    requires NoFallOffEnd(c.code) && Idle(c, h, hExit, mp, f, [])
    ensures PostFixpoint(c, mp, f)
  {
  }

  // ---------------------------------------------------------------------
  // The retrieval cache of the indexed variant.

  /** The state the cache starts from at the entry point: the stored
      fixpoint when the entry point is a label that has one, the initial
      state otherwise. */
  function Seed(c: Ctx, mp: Table): (s: AbstractState)
    requires |c.code| > 0
    ensures c.code[0].Label? && 0 in mp ==> s == mp[0]
    ensures !c.code[0].Label? || 0 !in mp ==> s == c.init
  {
    if c.code[0].Label? && 0 in mp then mp[0] else c.init
  }

  /** The state the cache holds with its cursor at `k`: from the seed,
      dispatch each instruction in turn, and at a label with a stored
      fixpoint continue from that instead. */
  function Replay(c: Ctx, mp: Table, k: nat): AbstractState
    requires 0 < |c.code| && k <= |c.code|
  {
    if k == 0 then Seed(c, mp)
    else if k < |c.code| && c.code[k].Label? && k in mp then mp[k]
    else c.transfer(c.code[k - 1], Replay(c, mp, k - 1))
  }

  /** The cache agrees with the table at every stored label. */
  lemma ReplayAtStoredLabel(c: Ctx, mp: Table, k: nat)
    requires 0 < |c.code| && k < |c.code| && c.code[k].Label? && k in mp
    ensures Replay(c, mp, k) == mp[k]
  {
  }

  /** Positions the driver reaches: the entry point when it is not a label,
      stored labels, and positions an instruction that falls through
      reaches from a reached position. */
  ghost predicate Reached(c: Ctx, mp: Table, k: nat)
    requires k < |c.code|
  {
    if c.code[k].Label? then k in mp
    else if k == 0 then true
    else Reached(c, mp, k - 1) && !c.code[k - 1].UncondJmp? && !c.code[k - 1].Exit?
  }

  /** The flows of a walk include those of the walk it falls through
      into. */
  lemma FallThroughCovered(c: Ctx, mp: Table, f: Option<AbstractState>, j: nat, s: AbstractState)
    requires NoFallOffEnd(c.code) && j + 1 < |c.code|
    requires !c.code[j].UncondJmp? && !c.code[j].Exit?
    requires AllCovered(Walk(c.code, c.transfer, j, s), mp, f)
    ensures AllCovered(Cont(c.code, c.transfer, j + 1, c.transfer(c.code[j], s)), mp, f)
  {
    var s' := c.transfer(c.code[j], s);
    var w := Walk(c.code, c.transfer, j, s);
    var rest := Cont(c.code, c.transfer, j + 1, s');
    if c.code[j].CondJmp? {
      assert w == [Into(c.code[j].target, s')] + rest;
      assert forall i :: 0 <= i < |rest| ==> rest[i] == w[i + 1];
    } else {
      assert w == rest;
    }
  }

  /** At a post-fixpoint, the walk from every reached position with the
      state the cache holds there produces only covered flows: the cache
      replays states the fixpoint accounts for. */
  lemma {:induction false} ReplayIsCovered(c: Ctx, mp: Table, f: Option<AbstractState>, k: nat)
    requires NoFallOffEnd(c.code) && PostFixpoint(c, mp, f)
    requires k < |c.code| && Reached(c, mp, k)
    ensures AllCovered(Walk(c.code, c.transfer, k, Replay(c, mp, k)), mp, f)
  {
    if c.code[k].Label? {
      assert Settled(c, mp, f, k);
    } else if k == 0 {
      assert EntryEdges(c) == Walk(c.code, c.transfer, 0, c.init);
    } else {
      ReplayIsCovered(c, mp, f, k - 1);
      FallThroughCovered(c, mp, f, k - 1, Replay(c, mp, k - 1));
    }
  }

  /** At a post-fixpoint, where a reached instruction falls through into a
      label, the state the cache carries to that label is below the
      fixpoint it continues from there. */
  lemma ReplayIntoLabelIsBelowFixpoint(c: Ctx, mp: Table, f: Option<AbstractState>, k: nat)
    requires NoFallOffEnd(c.code) && PostFixpoint(c, mp, f)
    requires 0 < k < |c.code| && c.code[k].Label? && Reached(c, mp, k - 1)
    requires !c.code[k - 1].UncondJmp? && !c.code[k - 1].Exit?
    ensures k in mp
    ensures StateLeq(c.transfer(c.code[k - 1], Replay(c, mp, k - 1)), Replay(c, mp, k))
  {
    ReplayIsCovered(c, mp, f, k - 1);
    FallThroughCovered(c, mp, f, k - 1, Replay(c, mp, k - 1));
    assert Cont(c.code, c.transfer, k, c.transfer(c.code[k - 1], Replay(c, mp, k - 1)))[0]
        == Into(k, c.transfer(c.code[k - 1], Replay(c, mp, k - 1)));
  }

  // ---------------------------------------------------------------------
  // The seed of the cache as `initializeCache` writes it.

  /** The state `initializeCache` starts the cache from: the initial state,
      whether or not the entry point is a label with a stored fixpoint. */
  function SeedAsWritten(c: Ctx, mp: Table): AbstractState
  {
    c.init
  }

  /** For every post-fixpoint of that loop the state stored at its head
      binds `x`, which the initial state does not: the state the as-written
      cache holds at the entry point is not above the fixpoint there, so
      the cache under-approximates the loop.  The corrected seed is the
      stored state itself. */
  lemma SeedAsWrittenMissesTheLoop(mp: Table, f: Option<AbstractState>)
    requires PostFixpoint(LoopAtEntry, mp, f)
    ensures 0 in mp && Seed(LoopAtEntry, mp) == mp[0]
    ensures !StateLeq(mp[0], SeedAsWritten(LoopAtEntry, mp))
  {
    var c := LoopAtEntry;
    assert EntryEdges(c)[0] == Into(0, EmptyState);
    var m := mp[0];
    assert Settled(c, mp, f, 0);
    var w := Walk(c.code, c.transfer, 0, m);
    assert w[0] == Into(0, BindX(m));
    assert "x" in m.env.bindings;
  }
}
