/** The forward driver of analysis.h (`ForwardAnalysis`, with the final
    state of `ForwardAnalysisFinal` and the retrieval cache of
    `ForwardAnalysisIns`) as a class whose fields the driver updates in place.
    The cache here starts at the entry from the stored fixpoint when the
    entry is a stored label (`Seed`); the source starts from the initial
    state there, which `ForwardWalks.SeedAsWritten` records. */
module ForwardAnalyses {
  import opened Wrappers
  import opened States
  import opened Code
  import opened Analyses
  import opened ForwardWalks

  class ForwardAnalysis {
    /** What the analysis' dispatcher does to the current state. */
    const transfer: Transfer
    /** What `initialState()` returns. */
    const initial: AbstractState
    /** Whether this is the indexed variant, which keeps a retrieval cache. */
    const indexed: bool

    var code: Option<seq<Instr>>
    var initialState: Option<AbstractState>
    var currentState: Option<AbstractState>
    var finalState: Option<AbstractState>
    var currentIns: nat
    var mergePoints: Table
    /** The worklist of labels; its front is index 0. */
    var q: seq<nat>

    constructor (transfer: Transfer, initial: AbstractState, indexed: bool)
      ensures this.transfer == transfer && this.initial == initial && this.indexed == indexed
      ensures code.None? && initialState.None? && currentState.None? && finalState.None?
      ensures mergePoints == map[] && q == []
    {
      this.transfer := transfer;
      this.initial := initial;
      this.indexed := indexed;
      code := None;
      initialState := None;
      currentState := None;
      finalState := None;
      currentIns := 0;
      mergePoints := map[];
      q := [];
    }

    /** The input of the analysis of the current code. */
    function Input(): Ctx
      reads this`code
      requires code.Some?
    {
      Ctx(code.value, transfer, initial)
    }

    /** The current state once the instruction under the cursor is
        dispatched. */
    ghost function Outgoing(): AbstractState
      reads this`code, this`currentIns, this`currentState
      requires code.Some? && currentIns < |code.value| && currentState.Some?
    {
      transfer(code.value[currentIns], currentState.value)
    }

    /** What holds between calls: the worklist is drained, and without code
        there are no results. */
    ghost predicate Quiet()
      reads this
    {
      q == [] && (code.None? ==> mergePoints == map[] && finalState.None?)
    }

    /** `good()`: the analysis holds results for some code. */
    predicate Good()
      reads this
    {
      code.Some?
    }

    /** Drops the code and every computed state; the worklist and the
        cursor are left as they are. */
    method Invalidate()
      modifies this
      ensures code.None? && initialState.None? && currentState.None? && finalState.None?
      ensures mergePoints == map[]
      ensures q == old(q) && currentIns == old(currentIns)
    {
      code := None;
      currentState := None;
      initialState := None;
      finalState := None;
      mergePoints := map[];
    }

    /** Analyzes `c`, dropping any earlier results first.  The driver runs
        for at most `fuel` branches; `converged` says it drained its
        worklist, and then the merge points and the final state are a
        post-fixpoint of the code.  `h` and `hExit` are the stack depths the
        code keeps to. */
    method Analyze(c: seq<Instr>, fuel: nat, ghost h: seq<nat>, ghost hExit: nat) returns (converged: bool)
      requires Quiet() && WellFormed(Ctx(c, transfer, initial), h, hExit)
      modifies this
      ensures Quiet() && code == Some(c) && initialState == Some(initial)
      ensures Tables(Input(), h, hExit, mergePoints, finalState)
      ensures converged ==> PostFixpoint(Input(), mergePoints, finalState)
      ensures indexed ==> CacheAt(0)
      ensures !indexed ==> currentState.None?
    {
      if code.Some? {
        Invalidate();
      }
      code := Some(c);
      converged := DoAnalyze(fuel, h, hExit);
    }

    /** Runs the driver and, in the indexed variant, sets up the cache. */
    method DoAnalyze(fuel: nat, ghost h: seq<nat>, ghost hExit: nat) returns (converged: bool)
      requires code.Some? && WellFormed(Input(), h, hExit)
      requires mergePoints == map[] && finalState.None? && q == []
      modifies this
      ensures code == old(code) && q == [] && initialState == Some(initial)
      ensures Tables(Input(), h, hExit, mergePoints, finalState)
      ensures converged ==> PostFixpoint(Input(), mergePoints, finalState)
      ensures indexed ==> CacheAt(0)
      ensures !indexed ==> currentState.None?
    {
      converged := Drive(fuel, h, hExit);
      if indexed {
        InitializeCache();
      }
    }

    /** The worklist driver: from the entry point with the initial state,
        walk each branch until it ends, queueing the labels whose stored
        state a jump changed. */
    method Drive(fuel: nat, ghost h: seq<nat>, ghost hExit: nat) returns (converged: bool)
      requires code.Some? && WellFormed(Input(), h, hExit)
      requires mergePoints == map[] && finalState.None? && q == []
      modifies this`initialState, this`currentState, this`finalState, this`currentIns, this`mergePoints, this`q
      ensures q == [] && currentState.None? && initialState == Some(initial)
      ensures Tables(Input(), h, hExit, mergePoints, finalState)
      ensures converged ==> PostFixpoint(Input(), mergePoints, finalState)
    {
      ghost var c := Input();
      initialState := Some(initial);
      currentState := Some(initial);
      q := [0];
      converged := true;
      var budget := fuel;
      while q != []
        invariant code.Some? && c == Input() && initialState == Some(initial)
        invariant currentState.Some? ==>
                    currentState == Some(initial) && q == [0] && mergePoints == map[] && finalState.None?
        invariant currentState.None? ==> Idle(c, h, hExit, mergePoints, finalState, q)
        invariant converged
        decreases budget
      {
        if budget == 0 {
          if currentState.Some? {
            GrowsReflexive(map[], None);
          }
          q := [];
          currentState := None;
          converged := false;
          break;
        }
        budget := budget - 1;
        ghost var origin: Origin := FromEntry;
        ghost var q0 := q;
        currentIns := q[0];
        q := q[1..];
        if currentState.Some? {
          StartWalk(c, h, hExit);
        } else {
          TakeFromQueue(c, h, hExit, mergePoints, finalState, q0);
        }
        WalkBranch(h, hExit);
      }
      if converged {
        IdleAtEmptyQueue(c, h, hExit, mergePoints, finalState);
      }
    }

    /** One branch of the driver: from the instruction just taken off the
        worklist, merge at labels, dispatch, and follow the code until the
        branch ends at an unconditional jump, an exit, or a label whose
        stored state does not change. */
    method WalkBranch(ghost h: seq<nat>, ghost hExit: nat)
      requires code.Some? && WellFormed(Input(), h, hExit) && currentIns < |code.value|
      requires currentState.None? ==> Resuming(Input(), h, hExit, mergePoints, finalState, q, currentIns)
      requires currentState.Some? ==>
                 currentState.value == initial && currentIns == 0 &&
                 Walking(Input(), h, hExit, mergePoints, finalState, q, 0, initial, FromEntry, [], EntryEdges(Input()))
      modifies this`currentState, this`finalState, this`currentIns, this`mergePoints, this`q
      ensures currentState.None? && Idle(Input(), h, hExit, mergePoints, finalState, q)
    {
      ghost var c := Input();
      var code := code.value;
      ghost var origin: Origin := FromEntry;
      ghost var done: seq<Edge> := [];
      while true
        invariant c == Input() && currentIns < |c.code|
        invariant currentState.None? ==> Resuming(c, h, hExit, mergePoints, finalState, q, currentIns)
        invariant currentState.Some? ==>
                    Walking(c, h, hExit, mergePoints, finalState, q, currentIns, currentState.value, origin, done,
                            Cont(c.code, transfer, currentIns, currentState.value))
        decreases |c.code| - currentIns
      {
        var goOn := true;
        if code[currentIns].Label? {
          goOn, origin, done := MeetLabel(h, hExit, origin, done);
          if !goOn {
            break;
          }
        }
        goOn, done := Step(h, hExit, origin, done);
        if !goOn {
          break;
        }
      }
    }

    /** The label rule of the driver: a branch resumed from the worklist
        continues from the stored state; otherwise the incoming state is
        stored on a first visit and merged in afterwards, and the branch
        goes on only when the stored state changed. */
    method MeetLabel(ghost h: seq<nat>, ghost hExit: nat, ghost origin: Origin, ghost done: seq<Edge>)
      returns (goOn: bool, ghost origin': Origin, ghost done': seq<Edge>)
      requires code.Some? && NoFallOffEnd(code.value)
      requires currentIns < |code.value| && code.value[currentIns].Label?
      requires currentState.None? ==> Resuming(Input(), h, hExit, mergePoints, finalState, q, currentIns)
      requires currentState.Some? ==>
                 Walking(Input(), h, hExit, mergePoints, finalState, q, currentIns, currentState.value, origin, done,
                         Cont(code.value, transfer, currentIns, currentState.value))
      modifies this`currentState, this`mergePoints
      ensures (mergePoints, currentState) == MergePointRule(old(mergePoints), currentIns, old(currentState))
      ensures goOn == currentState.Some?
      ensures goOn ==> (currentState.Some? &&
                        Walking(Input(), h, hExit, mergePoints, finalState, q, currentIns, currentState.value, origin', done',
                                Walk(code.value, transfer, currentIns, currentState.value)))
      ensures !goOn ==> currentState.None? && Idle(Input(), h, hExit, mergePoints, finalState, q)
    {
      ghost var c := Input();
      var p := currentIns;
      if p !in mergePoints {
        var s := currentState.value;
        StoreAtLabel(c, h, hExit, mergePoints, finalState, q, p, s, origin, done);
        mergePoints := mergePoints[p := s];
        goOn, origin', done' := true, FromLabel(p, s), [];
      } else if currentState.None? {
        AdoptStored(c, h, hExit, mergePoints, finalState, q, p);
        currentState := Some(mergePoints[p]);
        goOn, origin', done' := true, FromLabel(p, mergePoints[p]), [];
      } else {
        var s := currentState.value;
        MergeAtLabel(c, h, hExit, mergePoints, finalState, q, p, s, origin, done);
        var (m, changed) := StateMerge(mergePoints[p], s);
        mergePoints := mergePoints[p := m];
        if changed {
          currentState := Some(m);
          goOn, origin', done' := true, FromLabel(p, m), [];
        } else {
          currentState := None;
          goOn, origin', done' := false, origin, done;
        }
      }
    }

    /** Dispatch of the instruction under the cursor, then the jump rule, the
        exit rule or the step to the next instruction. */
    method Step(ghost h: seq<nat>, ghost hExit: nat, ghost origin: Origin, ghost done: seq<Edge>)
      returns (goOn: bool, ghost done': seq<Edge>)
      requires code.Some? && WellFormed(Input(), h, hExit) && currentIns < |code.value|
      requires currentState.Some? &&
                 Walking(Input(), h, hExit, mergePoints, finalState, q, currentIns, currentState.value, origin, done,
                         Walk(code.value, transfer, currentIns, currentState.value))
      modifies this`currentState, this`finalState, this`currentIns, this`mergePoints, this`q
      ensures code.value[old(currentIns)].Exit? ==> finalState == Some(FoldFinal(old(finalState), old(Outgoing())))
      ensures !code.value[old(currentIns)].Exit? ==> finalState == old(finalState)
      ensures IsJmp(code.value[old(currentIns)]) ==>
                (mergePoints, q) == Enqueue(old(mergePoints), old(q), code.value[old(currentIns)].target, old(Outgoing()))
      ensures !IsJmp(code.value[old(currentIns)]) ==> mergePoints == old(mergePoints) && q == old(q)
      ensures goOn <==> !code.value[old(currentIns)].UncondJmp? && !code.value[old(currentIns)].Exit?
      ensures goOn ==> currentState == Some(old(Outgoing()))
      ensures !goOn ==> currentIns == old(currentIns)
      ensures goOn ==> (currentIns == old(currentIns) + 1 && currentIns < |code.value| && currentState.Some? &&
                        Walking(Input(), h, hExit, mergePoints, finalState, q, currentIns, currentState.value, origin, done',
                                Cont(code.value, transfer, currentIns, currentState.value)))
      ensures !goOn ==> currentState.None? && Idle(Input(), h, hExit, mergePoints, finalState, q)
    {
      ghost var c := Input();
      var code := code.value;
      var p := currentIns;
      var s := currentState.value;
      Balanced(c, h, hExit, p, s);
      if IsJmp(code[p]) {
        goOn, done' := StepJump(h, hExit, origin, done);
      } else if code[p].Exit? {
        StepAtExit(h, hExit, origin, done);
        goOn, done' := false, done;
      } else {
        var s' := transfer(code[p], s);
        StepToNext(c, h, hExit, mergePoints, finalState, q, p, s, origin, done);
        currentState := Some(s');
        currentIns := p + 1;
        goOn, done' := true, done;
      }
    }

    /** Dispatch of a jump, then `shouldJump` queues its target when the
        stored state there is new or changed; an unconditional jump ends the
        branch. */
    method StepJump(ghost h: seq<nat>, ghost hExit: nat, ghost origin: Origin, ghost done: seq<Edge>)
      returns (goOn: bool, ghost done': seq<Edge>)
      requires code.Some? && NoFallOffEnd(code.value) && JumpsToLabels(code.value)
      requires |h| == |code.value| && currentIns < |code.value| && IsJmp(code.value[currentIns])
      requires currentState.Some? &&
                 Walking(Input(), h, hExit, mergePoints, finalState, q, currentIns, currentState.value, origin, done,
                         Walk(code.value, transfer, currentIns, currentState.value))
      requires StepBalanced(code.value, h, hExit, currentIns, transfer(code.value[currentIns], currentState.value))
      modifies this`currentState, this`currentIns, this`mergePoints, this`q
      ensures (mergePoints, q) == Enqueue(old(mergePoints), old(q), code.value[old(currentIns)].target, old(Outgoing()))
      ensures goOn <==> code.value[old(currentIns)].CondJmp?
      ensures goOn ==> currentState == Some(old(Outgoing()))
      ensures !goOn ==> currentIns == old(currentIns)
      ensures goOn ==> (currentIns == old(currentIns) + 1 && currentIns < |code.value| && currentState.Some? &&
                        Walking(Input(), h, hExit, mergePoints, finalState, q, currentIns, currentState.value, origin, done',
                                Cont(code.value, transfer, currentIns, currentState.value)))
      ensures !goOn ==> currentState.None? && Idle(Input(), h, hExit, mergePoints, finalState, q)
    {
      if code.value[currentIns].UncondJmp? {
        StepAtUncondJump(h, hExit, origin, done);
        goOn, done' := false, done;
      } else {
        var s' := transfer(code.value[currentIns], currentState.value);
        done' := done + [Into(code.value[currentIns].target, s')];
        StepAtCondJump(h, hExit, origin, done);
        goOn := true;
      }
    }

    /** The jump part of the driver, shared by both kinds of jump: dispatch,
        then `shouldJump` and, when it holds, the target to the front of the
        worklist. */
    method JumpRule(t: nat) returns (s': AbstractState, jump: bool)
      requires code.Some? && currentIns < |code.value| && currentState.Some?
      requires t in mergePoints ==> Depth(mergePoints[t]) == Depth(transfer(code.value[currentIns], currentState.value))
      modifies this`currentState, this`mergePoints, this`q
      ensures s' == transfer(code.value[currentIns], old(currentState.value)) && currentState == Some(s')
      ensures (mergePoints, jump) == StoreOrMerge(old(mergePoints), t, s')
      ensures q == if jump then [t] + old(q) else old(q)
      ensures (mergePoints, q) == Enqueue(old(mergePoints), old(q), t, s')
    {
      s' := transfer(code.value[currentIns], currentState.value);
      currentState := Some(s');
      jump := ShouldJump(t);
      if jump {
        q := [t] + q;
      }
    }

    /** An unconditional jump ends the branch. */
    method StepAtUncondJump(ghost h: seq<nat>, ghost hExit: nat, ghost origin: Origin, ghost done: seq<Edge>)
      requires code.Some? && NoFallOffEnd(code.value) && JumpsToLabels(code.value)
      requires |h| == |code.value| && currentIns < |code.value| && code.value[currentIns].UncondJmp?
      requires currentState.Some? &&
                 Walking(Input(), h, hExit, mergePoints, finalState, q, currentIns, currentState.value, origin, done,
                         Walk(code.value, transfer, currentIns, currentState.value))
      requires StepBalanced(code.value, h, hExit, currentIns, transfer(code.value[currentIns], currentState.value))
      modifies this`currentState, this`mergePoints, this`q
      ensures (mergePoints, q) == Enqueue(old(mergePoints), old(q), code.value[currentIns].target, old(Outgoing()))
      ensures currentState.None? && Idle(Input(), h, hExit, mergePoints, finalState, q)
    {
      ghost var c, mp, q0, s := Input(), mergePoints, q, currentState.value;
      var t := code.value[currentIns].target;
      JumpTargetDepth(c, h, hExit, mp, finalState, currentIns, c.transfer(c.code[currentIns], s));
      var s', jump := JumpRule(t);
      currentState := None;
      StepUncondJump(c, h, hExit, mp, finalState, q0, currentIns, s, origin, done, mergePoints, jump, q);
    }

    /** After a conditional jump the branch goes on with the next
        instruction. */
    method StepAtCondJump(ghost h: seq<nat>, ghost hExit: nat, ghost origin: Origin, ghost done: seq<Edge>)
      requires code.Some? && NoFallOffEnd(code.value) && JumpsToLabels(code.value)
      requires |h| == |code.value| && currentIns < |code.value| && code.value[currentIns].CondJmp?
      requires currentState.Some? &&
                 Walking(Input(), h, hExit, mergePoints, finalState, q, currentIns, currentState.value, origin, done,
                         Walk(code.value, transfer, currentIns, currentState.value))
      requires StepBalanced(code.value, h, hExit, currentIns, transfer(code.value[currentIns], currentState.value))
      modifies this`currentState, this`currentIns, this`mergePoints, this`q
      ensures currentIns == old(currentIns) + 1 && currentIns < |code.value|
      ensures currentState == Some(old(Outgoing()))
      ensures (mergePoints, q) == Enqueue(old(mergePoints), old(q), code.value[old(currentIns)].target, old(Outgoing()))
      ensures Walking(Input(), h, hExit, mergePoints, finalState, q, currentIns, currentState.value, origin,
                      done + [Into(code.value[old(currentIns)].target, currentState.value)],
                      Cont(code.value, transfer, currentIns, currentState.value))
    {
      ghost var c, mp, q0, s := Input(), mergePoints, q, currentState.value;
      var p := currentIns;
      var t := code.value[p].target;
      JumpTargetDepth(c, h, hExit, mp, finalState, p, c.transfer(c.code[p], s));
      var s', jump := JumpRule(t);
      currentIns := p + 1;
      StepCondJump(c, h, hExit, mp, finalState, q0, p, s, origin, done, mergePoints, jump, q);
    }

    /** Dispatch of an exit: the state is merged into the final state, and
        the branch ends. */
    method StepAtExit(ghost h: seq<nat>, ghost hExit: nat, ghost origin: Origin, ghost done: seq<Edge>)
      requires code.Some? && NoFallOffEnd(code.value)
      requires |h| == |code.value| && currentIns < |code.value| && code.value[currentIns].Exit?
      requires currentState.Some? &&
                 Walking(Input(), h, hExit, mergePoints, finalState, q, currentIns, currentState.value, origin, done,
                         Walk(code.value, transfer, currentIns, currentState.value))
      requires StepBalanced(code.value, h, hExit, currentIns, transfer(code.value[currentIns], currentState.value))
      modifies this`currentState, this`finalState
      ensures finalState == Some(FoldFinal(old(finalState), old(Outgoing())))
      ensures currentState.None? && Idle(Input(), h, hExit, mergePoints, finalState, q)
    {
      ghost var c := Input();
      var p := currentIns;
      var s := currentState.value;
      var s' := transfer(code.value[p], s);
      StepExit(c, h, hExit, mergePoints, finalState, q, p, s, origin, done);
      if finalState.None? {
        finalState := Some(s');
      } else {
        var (m, _) := StateMerge(finalState.value, s');
        finalState := Some(m);
      }
      currentState := None;
    }

    /** `shouldJump`: stores the current state at the label on its first
        visit, merges it in afterwards; true when the stored state is new or
        changed. */
    method ShouldJump(l: nat) returns (jump: bool)
      requires currentState.Some?
      requires l in mergePoints ==> Depth(mergePoints[l]) == Depth(currentState.value)
      modifies this`mergePoints
      ensures (mergePoints, jump) == StoreOrMerge(old(mergePoints), l, currentState.value)
    {
      if l !in mergePoints {
        mergePoints := mergePoints[l := currentState.value];
        jump := true;
      } else {
        var (m, changed) := StateMerge(mergePoints[l], currentState.value);
        mergePoints := mergePoints[l := m];
        jump := changed;
      }
    }

    // -------------------------------------------------------------------
    // The retrieval cache of the indexed variant.

    /** The cache holds the replayed state at `k`. */
    ghost predicate CacheAt(k: nat)
      reads this
    {
      && code.Some? && |code.value| > 0
      && initialState == Some(initial)
      && currentIns == k && k <= |code.value|
      && currentState == Some(Replay(Input(), mergePoints, k))
    }

    /** `initializeCache`: the cursor back at the entry point. */
    method InitializeCache()
      requires code.Some? && |code.value| > 0 && initialState == Some(initial)
      modifies this`currentState, this`currentIns
      ensures CacheAt(0)
    {
      var c := code.value;
      if c[0].Label? && 0 in mergePoints {
        currentState := Some(mergePoints[0]);
      } else {
        currentState := Some(initialState.value);
      }
      currentIns := 0;
    }

    /** `advance`: dispatch the instruction under the cursor, step, and at a
        label with a stored fixpoint continue from a copy of it. */
    method Advance()
      requires code.Some? && currentIns < |code.value| && CacheAt(currentIns)
      modifies this`currentState, this`currentIns
      ensures CacheAt(old(currentIns) + 1)
    {
      var c := code.value;
      currentState := Some(transfer(c[currentIns], currentState.value));
      currentIns := currentIns + 1;
      if currentIns < |c| && c[currentIns].Label? && currentIns in mergePoints {
        currentState := Some(mergePoints[currentIns]);
      }
    }

    /** `seek`: replay forward from the cursor to `ins`, stopping at an exit
        or at the end, and otherwise replay from the entry point. */
    method Seek(ins: nat)
      requires code.Some? && ins < |code.value| && CacheAt(currentIns)
      modifies this`currentState, this`currentIns
      ensures CacheAt(ins)
    {
      var c := code.value;
      while currentIns != |c|
        invariant CacheAt(currentIns)
        decreases |c| - currentIns
      {
        if currentIns == ins {
          return;
        }
        if c[currentIns].Exit? {
          break;
        }
        Advance();
      }
      InitializeCache();
      while currentIns != |c|
        invariant CacheAt(currentIns) && currentIns <= ins
        decreases |c| - currentIns
      {
        if currentIns == ins {
          return;
        }
        Advance();
      }
      assert false;
    }

    /** `operator[]`: the state the cache computes at `ins`, replaying only
        when the cursor is elsewhere. */
    method Lookup(ins: nat) returns (s: AbstractState)
      requires code.Some? && ins < |code.value| && CacheAt(currentIns)
      modifies this`currentState, this`currentIns
      ensures CacheAt(ins) && s == Replay(Input(), mergePoints, ins)
      ensures old(currentIns) == ins ==> currentState == old(currentState)
    {
      if ins != currentIns {
        Seek(ins);
      }
      s := currentState.value;
    }

    /** `finalState()`. */
    function FinalState(): (s: AbstractState)
      reads this
      requires finalState.Some?
      ensures Some(s) == finalState
    {
      finalState.value
    }
  }
}
