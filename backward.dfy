/** The backward driver of analysis.h (`BackwardAnalysis`, with the final
    state of `BackwardAnalysisFinal` and the retrieval cache of
    `BackwardAnalysisIns`) as a class whose fields the driver updates in
    place.  Positions are walked from the exits towards the entry point;
    the cursor of the cache is an `int` so that it can stand one before the
    first position, where `rend()` is.
    Two rules are run in the corrected form: the label rule comes before
    the entry-point rule (the source ends the branch at the entry point
    first, `BackwardWalks.WalkAsWritten`), and the cache starts from the
    stored fixpoint when the last instruction is a stored jump (the source
    starts from the initial state, `BackwardWalks.LastSeedAsWritten`). */
module BackwardAnalyses {
  import opened Wrappers
  import opened States
  import opened Code
  import opened Analyses
  import opened BackwardWalks

  class BackwardAnalysis {
    /** What the analysis' dispatcher does to the current state. */
    const transfer: Transfer
    /** What `initialState()` returns. */
    const initial: AbstractState
    /** Whether this is the indexed variant, which keeps a retrieval cache. */
    const indexed: bool

    var code: Option<seq<Instr>>
    var initialState: Option<AbstractState>
    var currentState: Option<AbstractState>
    var finalState: Option<AbstractState>
    var currentIns: int
    /** Stored states, at jumps. */
    var mergePoints: Table
    /** For each label, the jumps to it, in the order of the code. */
    var jumpOrigins: map<nat, seq<nat>>
    /** The worklist of exits and jumps; its front is index 0. */
    var q: seq<nat>

    constructor (transfer: Transfer, initial: AbstractState, indexed: bool)
      ensures this.transfer == transfer && this.initial == initial && this.indexed == indexed
      ensures code.None? && initialState.None? && currentState.None? && finalState.None?
      ensures mergePoints == map[] && jumpOrigins == map[] && q == []
    {
      this.transfer := transfer;
      this.initial := initial;
      this.indexed := indexed;
      code := None;
      initialState := None;
      currentState := None;
      finalState := None;
      currentIns := 0;
      mergePoints := map[];
      jumpOrigins := map[];
      q := [];
    }

    /** The input of the analysis of the current code. */
    function Input(): Ctx
      reads this`code
      requires code.Some?
    {
      Ctx(code.value, transfer, initial)
    }

    /** The current state once the instruction under the cursor is
        dispatched. */
    ghost function Outgoing(): AbstractState
      reads this`code, this`currentIns, this`currentState
      requires code.Some? && 0 <= currentIns < |code.value| && currentState.Some?
    {
      transfer(code.value[currentIns], currentState.value)
    }

    /** The first pass is over: every label's jumps are collected. */
    ghost predicate OriginsCollected()
      reads this`code, this`jumpOrigins
    {
      code.Some? && forall l :: OriginsIn(jumpOrigins, l) == JumpOrigins(code.value, l)
    }

    /** `isMergePoint`: the states are kept at jumps, which are exactly the
        positions the label rule may follow. */
    predicate IsMergePoint(p: nat): (r: bool)
      reads this`code
      requires code.Some? && p < |code.value|
      ensures r <==> exists l :: p in JumpOrigins(code.value, l)
    {
      MergePointsAreOrigins(code.value, p);
      IsJmp(code.value[p])
    }

    /** What holds between calls: the worklist is drained, and without code
        there are no results and no jump origins. */
    ghost predicate Quiet()
      reads this
    {
      q == [] && (code.None? ==> mergePoints == map[] && finalState.None? && jumpOrigins == map[])
    }

    /** `good()`: the analysis holds results for some code. */
    predicate Good()
      reads this
    {
      code.Some?
    }

    /** Drops the code, every computed state and the jump origins; the
        worklist and the cursor are left as they are. */
    method Invalidate()
      modifies this
      ensures code.None? && initialState.None? && currentState.None? && finalState.None?
      ensures mergePoints == map[] && jumpOrigins == map[]
      ensures q == old(q) && currentIns == old(currentIns)
    {
      code := None;
      currentState := None;
      initialState := None;
      finalState := None;
      mergePoints := map[];
      jumpOrigins := map[];
    }

    /** Analyzes `c`, dropping any earlier results first.  The driver runs
        for at most `fuel` branches; `converged` says it drained its
        worklist, and then the merge points and the final state are a
        post-fixpoint of the code.  `h` and `hFinal` are the stack depths
        the code keeps to. */
    method Analyze(c: seq<Instr>, fuel: nat, ghost h: seq<nat>, ghost hFinal: nat) returns (converged: bool)
      requires Quiet() && WellFormed(Ctx(c, transfer, initial), h, hFinal)
      requires indexed ==> |c| > 0
      modifies this
      ensures Quiet() && code == Some(c) && initialState == Some(initial) && OriginsCollected()
      ensures Tables(Input(), h, hFinal, mergePoints, finalState)
      ensures converged ==> PostFixpoint(Input(), mergePoints, finalState)
      ensures indexed ==> CacheAt(|c| - 1)
      ensures !indexed ==> currentState.None?
    {
      if code.Some? {
        Invalidate();
      }
      code := Some(c);
      converged := DoAnalyze(fuel, h, hFinal);
    }

    /** The first pass, the driver and, in the indexed variant, the cache. */
    method DoAnalyze(fuel: nat, ghost h: seq<nat>, ghost hFinal: nat) returns (converged: bool)
      requires code.Some? && WellFormed(Input(), h, hFinal) && (indexed ==> |code.value| > 0)
      requires mergePoints == map[] && finalState.None? && jumpOrigins == map[] && q == []
      modifies this
      ensures code == old(code) && q == [] && initialState == Some(initial) && OriginsCollected()
      ensures Tables(Input(), h, hFinal, mergePoints, finalState)
      ensures converged ==> PostFixpoint(Input(), mergePoints, finalState)
      ensures indexed ==> CacheAt(|code.value| - 1)
      ensures !indexed ==> currentState.None?
    {
      CollectOrigins();
      converged := Drive(fuel, h, hFinal);
      if indexed {
        InitializeCache();
      }
    }

    /** The first pass: the jumps to every label, and every exit pushed to
        the front of the worklist. */
    method CollectOrigins()
      requires code.Some? && jumpOrigins == map[] && q == []
      modifies this`jumpOrigins, this`q
      ensures OriginsCollected() && q == ExitsBelow(code.value, |code.value|)
    {
      var code := code.value;
      for i := 0 to |code|
        invariant forall l :: OriginsIn(jumpOrigins, l) == OriginsBelow(code, l, i)
        invariant q == ExitsBelow(code, i)
      {
        ghost var origins := jumpOrigins;
        if IsJmp(code[i]) {
          var t := code[i].target;
          jumpOrigins := jumpOrigins[t := OriginsIn(jumpOrigins, t) + [i]];
        }
        CollectStep(code, origins, i, jumpOrigins);
        if code[i].Exit? {
          q := [i] + q;
        }
      }
    }

    /** The worklist driver: from each exit with the initial state, walk
        backwards until the branch ends, queueing the jumps whose stored
        state a label's flow changed. */
    method Drive(fuel: nat, ghost h: seq<nat>, ghost hFinal: nat) returns (converged: bool)
      requires code.Some? && WellFormed(Input(), h, hFinal) && OriginsCollected()
      requires mergePoints == map[] && finalState.None? && q == ExitsBelow(code.value, |code.value|)
      modifies this`initialState, this`currentState, this`finalState, this`currentIns, this`mergePoints, this`q
      ensures q == [] && currentState.None? && initialState == Some(initial)
      ensures Tables(Input(), h, hFinal, mergePoints, finalState)
      ensures converged ==> PostFixpoint(Input(), mergePoints, finalState)
    {
      ghost var c := Input();
      initialState := Some(initial);
      currentState := None;
      StartIdle(c, h, hFinal);
      converged := true;
      var budget := fuel;
      while q != []
        invariant c == Input() && initialState == Some(initial) && OriginsCollected()
        invariant currentState.None? && Idle(c, h, hFinal, mergePoints, finalState, q)
        invariant converged
        decreases budget
      {
        if budget == 0 {
          q := [];
          converged := false;
          break;
        }
        budget := budget - 1;
        TakeFromQueue(c, h, hFinal, mergePoints, finalState, q);
        currentIns := q[0];
        q := q[1..];
        WalkBranch(h, hFinal);
      }
      if converged {
        IdleAtEmptyQueue(c, h, hFinal, mergePoints, finalState);
      }
    }

    /** One branch of the driver: from the position just taken off the
        worklist, apply the exit and merge-point rules, dispatch, follow a
        label's jump origins, and step back until the branch ends at the
        entry point, at a label the previous instruction does not reach, or
        at a jump whose stored state does not change. */
    method WalkBranch(ghost h: seq<nat>, ghost hFinal: nat)
      requires code.Some? && WellFormed(Input(), h, hFinal) && OriginsCollected()
      requires initialState == Some(initial) && 0 <= currentIns < |code.value| && currentState.None?
      requires Resuming(Input(), h, hFinal, mergePoints, finalState, q, currentIns)
      modifies this`currentState, this`finalState, this`currentIns, this`mergePoints, this`q
      ensures currentState.None? && Idle(Input(), h, hFinal, mergePoints, finalState, q)
    {
      ghost var c := Input();
      var goOn := true;
      ghost var origin: Origin, done: seq<Edge> := FromExit(0), [];
      while goOn
        invariant code.Some? && c == Input() && OriginsCollected()
        invariant initialState == Some(initial)
        invariant 0 <= currentIns < |c.code|
        invariant goOn && currentState.None? ==> Resuming(c, h, hFinal, mergePoints, finalState, q, currentIns)
        invariant currentState.Some? ==>
                    goOn && Continues(c, h, hFinal, mergePoints, finalState, q, origin, done, true, currentIns, currentState)
        invariant !goOn ==> currentState.None? && Idle(c, h, hFinal, mergePoints, finalState, q)
        decreases currentIns + if goOn then 1 else 0
      {
        goOn, origin, done := Visit(c, h, hFinal, origin, done);
      }
    }

    /** One round of a branch: the exit and merge-point rules at the
        position under the cursor, then, when the branch goes on, dispatch
        and leave it, stepping back to the previous position or ending the
        branch. */
    method Visit(ghost c: Ctx, ghost h: seq<nat>, ghost hFinal: nat, ghost origin: Origin, ghost done: seq<Edge>)
      returns (goOn: bool, ghost origin': Origin, ghost done': seq<Edge>)
      requires code.Some? && c == Input() && WellFormed(c, h, hFinal) && OriginsCollected()
      requires initialState == Some(initial) && 0 <= currentIns < |c.code|
      requires currentState.None? ==> Resuming(c, h, hFinal, mergePoints, finalState, q, currentIns)
      requires currentState.Some? ==>
                 Continues(c, h, hFinal, mergePoints, finalState, q, origin, done, true, currentIns, currentState)
      modifies this`currentState, this`finalState, this`currentIns, this`mergePoints, this`q
      ensures goOn ==> currentIns == old(currentIns) - 1
      ensures !goOn ==> currentIns == old(currentIns)
      ensures Continues(c, h, hFinal, mergePoints, finalState, q, origin', done', goOn, currentIns, currentState)
    {
      goOn, origin', done' := Arrive(c, h, hFinal, origin, done);
      if goOn {
        goOn, done' := Leave(c, h, hFinal, origin', done', currentIns, currentState.value);
      }
    }

    /** The exit and merge-point rules: an exit starts from a copy of the
        initial state; at a jump the incoming state is stored on a first
        visit, the stored one taken over when there is no incoming one, and
        otherwise merged in, the branch going on only when the stored state
        changed. */
    method Arrive(ghost c: Ctx, ghost h: seq<nat>, ghost hFinal: nat, ghost origin: Origin, ghost done: seq<Edge>)
      returns (goOn: bool, ghost origin': Origin, ghost done': seq<Edge>)
      requires code.Some? && c == Input() && WellFormed(c, h, hFinal) && 0 <= currentIns < |c.code|
      requires initialState == Some(initial)
      requires currentState.None? ==> Resuming(c, h, hFinal, mergePoints, finalState, q, currentIns)
      requires currentState.Some? ==>
                 Continues(c, h, hFinal, mergePoints, finalState, q, origin, done, true, currentIns, currentState)
      modifies this`currentState, this`mergePoints
      ensures initialState == old(initialState)
      ensures c.code[currentIns].Exit? ==> currentState == Some(initial) && mergePoints == old(mergePoints)
      ensures !c.code[currentIns].Exit? && IsMergePoint(currentIns) ==>
                (mergePoints, currentState) == MergePointRule(old(mergePoints), currentIns, old(currentState))
      ensures !c.code[currentIns].Exit? && !IsMergePoint(currentIns) ==>
                currentState == old(currentState) && mergePoints == old(mergePoints)
      ensures goOn == currentState.Some?
      ensures Arrived(c, h, hFinal, mergePoints, finalState, q, origin', done', goOn, currentIns, currentState)
    {
      var p: nat := currentIns;
      if code.value[p].Exit? {
        ArriveAtExit(c, h, hFinal);
        goOn, origin', done' := true, FromExit(p), [];
      } else if IsMergePoint(p) {
        goOn, origin', done' := ArriveAtJump(c, h, hFinal, origin, done);
      } else {
        goOn, origin', done' := true, origin, done;
      }
    }

    /** An exit: the walk starts from a copy of the initial state. */
    method ArriveAtExit(ghost c: Ctx, ghost h: seq<nat>, ghost hFinal: nat)
      requires code.Some? && c == Input() && |h| == |c.code| && 0 <= currentIns < |c.code|
      requires initialState == Some(initial) && Depth(initial) == h[currentIns]
      requires c.code[currentIns].Exit?
      requires Resuming(c, h, hFinal, mergePoints, finalState, q, currentIns)
      modifies this`currentState
      ensures currentState == Some(initial)
      ensures Walking(c, h, hFinal, mergePoints, finalState, q, FromExit(currentIns), [],
                      Walk(c.code, c.transfer, currentIns, initial))
    {
      BeginAtExit(c, h, hFinal, mergePoints, finalState, q, currentIns);
      currentState := Some(initialState.value);
    }

    /** A merge point: the incoming state is stored on a first visit, the
        stored one taken over when the jump was taken off the worklist, and
        otherwise merged in. */
    method ArriveAtJump(ghost c: Ctx, ghost h: seq<nat>, ghost hFinal: nat, ghost origin: Origin, ghost done: seq<Edge>)
      returns (goOn: bool, ghost origin': Origin, ghost done': seq<Edge>)
      requires code.Some? && c == Input() && |h| == |c.code| && 0 <= currentIns < |c.code| && IsMergePoint(currentIns)
      requires currentState.None? ==> Resuming(c, h, hFinal, mergePoints, finalState, q, currentIns)
      requires currentState.Some? ==>
                 && Depth(currentState.value) == h[currentIns]
                 && Walking(c, h, hFinal, mergePoints, finalState, q, origin, done,
                            Cont(c.code, c.transfer, currentIns, currentState.value))
      modifies this`currentState, this`mergePoints
      ensures (mergePoints, currentState) == MergePointRule(old(mergePoints), currentIns, old(currentState))
      ensures goOn == currentState.Some?
      ensures Arrived(c, h, hFinal, mergePoints, finalState, q, origin', done', goOn, currentIns, currentState)
    {
      var p: nat := currentIns;
      if p !in mergePoints {
        var s := currentState.value;
        StoreAtJump(c, h, hFinal, mergePoints, finalState, q, origin, done, p, s);
        mergePoints := mergePoints[p := s];
        goOn, origin', done' := true, FromJump(p, s), [];
      } else if currentState.None? {
        AdoptStored(c, h, hFinal, mergePoints, finalState, q, p);
        currentState := Some(mergePoints[p]);
        goOn, origin', done' := true, FromJump(p, mergePoints[p]), [];
      } else {
        goOn, origin', done' := MergeIn(c, h, hFinal, origin, done);
      }
    }

    /** A merge point with a stored state and an incoming one: the branch
        goes on from the merged state only when it changed. */
    method MergeIn(ghost c: Ctx, ghost h: seq<nat>, ghost hFinal: nat, ghost origin: Origin, ghost done: seq<Edge>)
      returns (goOn: bool, ghost origin': Origin, ghost done': seq<Edge>)
      requires code.Some? && c == Input() && |h| == |c.code| && 0 <= currentIns < |c.code| && IsMergePoint(currentIns)
      requires currentIns in mergePoints && currentState.Some? && Depth(currentState.value) == h[currentIns]
      requires Walking(c, h, hFinal, mergePoints, finalState, q, origin, done,
                       Cont(c.code, c.transfer, currentIns, currentState.value))
      modifies this`currentState, this`mergePoints
      ensures (mergePoints, currentState) == MergePointRule(old(mergePoints), currentIns, old(currentState))
      ensures goOn == currentState.Some?
      ensures Arrived(c, h, hFinal, mergePoints, finalState, q, origin', done', goOn, currentIns, currentState)
    {
      var p: nat := currentIns;
      var s := currentState.value;
      MergeAtJump(c, h, hFinal, mergePoints, finalState, q, origin, done, p, s);
      var (m, changed) := StateMerge(mergePoints[p], s);
      mergePoints := mergePoints[p := m];
      if changed {
        currentState := Some(m);
        goOn, origin', done' := true, FromJump(p, m), [];
      } else {
        currentState := None;
        goOn, origin', done' := false, origin, done;
      }
    }

    /** Dispatch, then the label rule (each jump to the label that
        `shouldFollowJumpFrom` admits is queued), then the entry-point rule,
        and otherwise the step to the previous position when the walk goes
        on there. */
    method Leave(ghost c: Ctx, ghost h: seq<nat>, ghost hFinal: nat, ghost origin: Origin, ghost done: seq<Edge>,
                 ghost p: nat, ghost s: AbstractState)
      returns (goOn: bool, ghost done': seq<Edge>)
      requires code.Some? && c == Input() && WellFormed(c, h, hFinal) && OriginsCollected()
      requires currentIns >= 0 && p == currentIns < |c.code| && currentState == Some(s)
      requires Arrived(c, h, hFinal, mergePoints, finalState, q, origin, done, true, p, currentState)
      modifies this`currentState, this`finalState, this`currentIns, this`mergePoints, this`q
      ensures initialState == old(initialState)
      ensures c.code[p].Label? ==>
                && DepthsAgree(old(mergePoints), JumpOrigins(c.code, p), c.transfer(c.code[p], s))
                && (mergePoints, q) == EnqueueAll(old(mergePoints), old(q), JumpOrigins(c.code, p), c.transfer(c.code[p], s))
      ensures !c.code[p].Label? ==> mergePoints == old(mergePoints) && q == old(q)
      ensures p == 0 ==> finalState == Some(FoldFinal(old(finalState), c.transfer(c.code[p], s)))
      ensures p != 0 ==> finalState == old(finalState)
      ensures goOn == FlowsBack(c.code, p)
      ensures goOn ==> currentIns == p - 1 && currentState == Some(c.transfer(c.code[p], s))
      ensures !goOn ==> currentIns == p
      ensures Continues(c, h, hFinal, mergePoints, finalState, q, origin, done', goOn, currentIns, currentState)
    {
      Balanced(c, h, hFinal, p, s);
      Dispatched(c, h, hFinal, mergePoints, finalState, q, origin, done, p, s);
      if code.value[currentIns].Label? {
        goOn, done' := LeaveLabel(c, h, hFinal, origin, done, p, s);
      } else {
        goOn, done' := LeavePlain(c, h, hFinal, origin, done, p, s);
      }
    }

    /** `Leave` at a label. */
    method LeaveLabel(ghost c: Ctx, ghost h: seq<nat>, ghost hFinal: nat, ghost origin: Origin, ghost done: seq<Edge>,
                 ghost p: nat, ghost s: AbstractState)
      returns (goOn: bool, ghost done': seq<Edge>)
      requires code.Some? && c == Input() && ExitsFollowedByLabels(c.code) && |h| == |c.code|
      requires currentIns >= 0 && OriginsIn(jumpOrigins, currentIns) == JumpOrigins(c.code, currentIns)
      requires p == currentIns < |c.code| && currentState == Some(s) && c.code[p].Label?
      requires StepBalanced(c.code, h, hFinal, p, c.transfer(c.code[p], s))
      requires Walking(c, h, hFinal, mergePoints, finalState, q, origin, done,
                       IntoEach(JumpOrigins(c.code, p), c.transfer(c.code[p], s))
                                 + Onward(c.code, c.transfer, p, c.transfer(c.code[p], s)))
      modifies this`currentState, this`finalState, this`currentIns, this`mergePoints, this`q
      ensures initialState == old(initialState)
      ensures DepthsAgree(old(mergePoints), JumpOrigins(c.code, p), c.transfer(c.code[p], s))
      ensures (mergePoints, q) == EnqueueAll(old(mergePoints), old(q), JumpOrigins(c.code, p), c.transfer(c.code[p], s))
      ensures p == 0 ==> finalState == Some(FoldFinal(old(finalState), c.transfer(c.code[p], s)))
      ensures p != 0 ==> finalState == old(finalState)
      ensures goOn == FlowsBack(c.code, p)
      ensures goOn ==> currentIns == p - 1 && currentState == Some(c.transfer(c.code[p], s))
      ensures !goOn ==> currentIns == p
      ensures Continues(c, h, hFinal, mergePoints, finalState, q, origin, done', goOn, currentIns, currentState)
    {
      ghost var mp, f := mergePoints, finalState;
      var s' := transfer(code.value[currentIns], currentState.value);
      assert s' == c.transfer(c.code[p], s);
      currentState := Some(s');
      OriginsAgreeInDepth(c, h, hFinal, mp, f, p, s');
      done' := FollowOrigins(c, h, hFinal, origin, done, Onward(c.code, c.transfer, p, s'));
      goOn := GoOnward(c, h, hFinal, origin, done');
    }

    /** `Leave` elsewhere than at a label. */
    method LeavePlain(ghost c: Ctx, ghost h: seq<nat>, ghost hFinal: nat, ghost origin: Origin, ghost done: seq<Edge>,
                 ghost p: nat, ghost s: AbstractState)
      returns (goOn: bool, ghost done': seq<Edge>)
      requires code.Some? && c == Input() && ExitsFollowedByLabels(c.code) && |h| == |c.code|
      requires currentIns >= 0 && OriginsIn(jumpOrigins, currentIns) == JumpOrigins(c.code, currentIns)
      requires p == currentIns < |c.code| && currentState == Some(s) && !c.code[p].Label?
      requires StepBalanced(c.code, h, hFinal, p, c.transfer(c.code[p], s))
      requires Walking(c, h, hFinal, mergePoints, finalState, q, origin, done,
                       Onward(c.code, c.transfer, p, c.transfer(c.code[p], s)))
      modifies this`currentState, this`finalState, this`currentIns
      ensures initialState == old(initialState)
      ensures mergePoints == old(mergePoints) && q == old(q)
      ensures p == 0 ==> finalState == Some(FoldFinal(old(finalState), c.transfer(c.code[p], s)))
      ensures p != 0 ==> finalState == old(finalState)
      ensures goOn == FlowsBack(c.code, p)
      ensures goOn ==> currentIns == p - 1 && currentState == Some(c.transfer(c.code[p], s))
      ensures !goOn ==> currentIns == p
      ensures Continues(c, h, hFinal, mergePoints, finalState, q, origin, done', goOn, currentIns, currentState)
    {
      var s' := transfer(code.value[currentIns], currentState.value);
      assert s' == c.transfer(c.code[p], s);
      currentState := Some(s');
      done' := done;
      goOn := GoOnward(c, h, hFinal, origin, done');
    }

    /** After dispatch: the entry-point rule ends the branch at the first
        position, and otherwise the walk steps back when the previous
        instruction reaches this one, the branch ending when it does not. */
    method GoOnward(ghost c: Ctx, ghost h: seq<nat>, ghost hFinal: nat, ghost origin: Origin, ghost done: seq<Edge>)
      returns (goOn: bool)
      requires code.Some? && c == Input() && ExitsFollowedByLabels(c.code) && |h| == |c.code|
      requires 0 <= currentIns < |c.code| && currentState.Some?
      requires StepBalanced(c.code, h, hFinal, currentIns, currentState.value)
      requires Walking(c, h, hFinal, mergePoints, finalState, q, origin, done,
                       Onward(c.code, c.transfer, currentIns, currentState.value))
      modifies this`currentState, this`finalState, this`currentIns
      ensures initialState == old(initialState)
      ensures old(currentIns) == 0 ==> finalState == Some(FoldFinal(old(finalState), old(currentState).value))
      ensures old(currentIns) != 0 ==> finalState == old(finalState)
      ensures goOn == FlowsBack(c.code, old(currentIns))
      ensures goOn ==> currentIns == old(currentIns) - 1 && currentState == old(currentState)
      ensures !goOn ==> currentIns == old(currentIns)
      ensures Continues(c, h, hFinal, mergePoints, finalState, q, origin, done, goOn, currentIns, currentState)
    {
      var p: nat := currentIns;
      if p == 0 {
        ReachEntryPoint(c, h, hFinal, origin, done);
        goOn := false;
      } else if !FlowsBack(code.value, p) {
        Finish(c, h, hFinal, mergePoints, finalState, q, origin, done);
        currentState := None;
        goOn := false;
      } else {
        StepBack(c, h, hFinal, mergePoints, finalState, q, origin, done, p, currentState.value);
        currentIns := p - 1;
        goOn := true;
      }
    }

    /** The label rule: `shouldFollowJumpFrom` for each jump to the label,
        in the order of the code, and each one it admits to the front of the
        worklist. */
    method FollowOrigins(ghost c: Ctx, ghost h: seq<nat>, ghost hFinal: nat, ghost origin: Origin, ghost done: seq<Edge>,
                         ghost tail: seq<Edge>)
      returns (ghost done': seq<Edge>)
      requires code.Some? && c == Input() && 0 <= currentIns < |c.code|
      requires OriginsIn(jumpOrigins, currentIns) == JumpOrigins(c.code, currentIns)
      requires c.code[currentIns].Label? && currentState.Some?
      requires |h| == |c.code| && StepBalanced(c.code, h, hFinal, currentIns, currentState.value)
      requires DepthsAgree(mergePoints, JumpOrigins(c.code, currentIns), currentState.value)
      requires Walking(c, h, hFinal, mergePoints, finalState, q, origin, done,
                       IntoEach(JumpOrigins(c.code, currentIns), currentState.value) + tail)
      modifies this`mergePoints, this`q
      ensures currentIns == old(currentIns) && currentState == old(currentState)
      ensures (mergePoints, q) == EnqueueAll(old(mergePoints), old(q), JumpOrigins(c.code, currentIns), currentState.value)
      ensures Walking(c, h, hFinal, mergePoints, finalState, q, origin, done', tail)
    {
      ghost var mp, q0 := mergePoints, q;
      var p: nat := currentIns;
      var s' := currentState.value;
      var os := OriginsIn(jumpOrigins, p);
      FollowEach(os);
      OriginsFollowed(c, h, hFinal, p, s');
      FollowAllOrigins(c, h, hFinal, mp, finalState, q0, origin, done, os, s', tail);
      done' := done + IntoEach(os, s');
    }

    /** The loop of the label rule over the jumps `os` to the label. */
    method FollowEach(os: seq<nat>)
      requires currentState.Some? && DepthsAgree(mergePoints, os, currentState.value)
      modifies this`mergePoints, this`q
      ensures (mergePoints, q) == EnqueueAll(old(mergePoints), old(q), os, currentState.value)
    {
      var s' := currentState.value;
      ghost var r := EnqueueAll(mergePoints, q, os, s');
      assert os[0..] == os;
      for i := 0 to |os|
        invariant currentState == Some(s')
        invariant DepthsAgree(mergePoints, os[i..], s') && EnqueueAll(mergePoints, q, os[i..], s') == r
      {
        EnqueueAllStep(mergePoints, q, os, i, s');
        FollowJump(os[i]);
      }
      assert os[|os|..] == [];
    }

    /** One jump to the label: queued when `shouldFollowJumpFrom` admits it. */
    method FollowJump(j: nat)
      requires currentState.Some?
      requires j in mergePoints ==> Depth(mergePoints[j]) == Depth(currentState.value)
      modifies this`mergePoints, this`q
      ensures (mergePoints, q) == Enqueue(old(mergePoints), old(q), j, currentState.value)
    {
      var follow := ShouldFollowJumpFrom(j);
      if follow {
        q := [j] + q;
      }
    }

    /** `shouldFollowJumpFrom`: stores the current state at the jump on its
        first visit, merges it in afterwards; true when the stored state is
        new or changed. */
    method ShouldFollowJumpFrom(j: nat) returns (follow: bool)
      requires currentState.Some?
      requires j in mergePoints ==> Depth(mergePoints[j]) == Depth(currentState.value)
      modifies this`mergePoints
      ensures (mergePoints, follow) == StoreOrMerge(old(mergePoints), j, currentState.value)
    {
      if j !in mergePoints {
        mergePoints := mergePoints[j := currentState.value];
        follow := true;
      } else {
        var (m, changed) := StateMerge(mergePoints[j], currentState.value);
        mergePoints := mergePoints[j := m];
        follow := changed;
      }
    }

    /** The entry-point rule: the state is merged into the final state, and
        the branch ends. */
    method ReachEntryPoint(ghost c: Ctx, ghost h: seq<nat>, ghost hFinal: nat, ghost origin: Origin, ghost done: seq<Edge>)
      requires code.Some? && c == Input() && |h| == |c.code| && 0 == currentIns < |c.code| && currentState.Some?
      requires StepBalanced(c.code, h, hFinal, 0, currentState.value)
      requires Walking(c, h, hFinal, mergePoints, finalState, q, origin, done,
                       Onward(c.code, c.transfer, 0, currentState.value))
      modifies this`currentState, this`finalState
      ensures finalState == Some(FoldFinal(old(finalState), old(currentState).value))
      ensures currentState.None? && Idle(c, h, hFinal, mergePoints, finalState, q)
    {
      ghost var f := finalState;
      var s' := currentState.value;
      ReachEntry(c, h, hFinal, mergePoints, f, q, origin, done, s');
      if finalState.None? {
        finalState := Some(s');
      } else {
        var (m, _) := StateMerge(finalState.value, s');
        finalState := Some(m);
      }
      currentState := None;
    }

    // -------------------------------------------------------------------
    // The retrieval cache of the indexed variant.

    /** The cache holds the replayed state at `k`, or stands at `rend()`. */
    ghost predicate CacheAt(k: int)
      reads this
    {
      && code.Some? && |code.value| > 0
      && initialState == Some(initial)
      && currentIns == k && -1 <= k < |code.value|
      && (k >= 0 ==> currentState == Some(Replay(Input(), mergePoints, k)))
    }

    /** `initializeCache`: the cursor at the last position, which is
        dispatched from the stored fixpoint when it is a merge point that has
        one, and from a copy of the initial state otherwise. */
    method InitializeCache()
      requires code.Some? && |code.value| > 0 && initialState == Some(initial)
      modifies this`currentState, this`currentIns
      ensures CacheAt(|code.value| - 1)
    {
      var last := |code.value| - 1;
      if IsMergePoint(last) && last in mergePoints {
        currentState := Some(mergePoints[last]);
      } else {
        currentState := Some(initialState.value);
      }
      currentIns := last;
      currentState := Some(transfer(code.value[last], currentState.value));
    }

    /** `advance`: step back; at an exit start from a copy of the initial
        state, at a merge point with a stored fixpoint from a copy of it;
        then dispatch.  Stepping back from the first position leaves the
        cursor at `rend()`. */
    method Advance()
      requires code.Some? && 0 <= currentIns && CacheAt(currentIns)
      modifies this`currentState, this`currentIns
      ensures CacheAt(old(currentIns) - 1)
    {
      currentIns := currentIns - 1;
      if currentIns >= 0 {
        var k: nat := currentIns;
        if code.value[k].Exit? {
          currentState := Some(initialState.value);
        } else if IsMergePoint(k) && k in mergePoints {
          currentState := Some(mergePoints[k]);
        }
        currentState := Some(transfer(code.value[k], currentState.value));
      }
    }

    /** `seek`: replay backwards from the cursor to `ins`, and otherwise
        replay again from the last position. */
    method Seek(ins: nat)
      requires code.Some? && ins < |code.value| && CacheAt(currentIns)
      modifies this`currentState, this`currentIns
      ensures CacheAt(ins)
    {
      while currentIns != -1
        invariant CacheAt(currentIns)
        decreases currentIns
      {
        if currentIns == ins {
          return;
        }
        Advance();
      }
      InitializeCache();
      while currentIns != -1
        invariant CacheAt(currentIns) && ins <= currentIns
        decreases currentIns
      {
        if currentIns == ins {
          return;
        }
        Advance();
      }
      assert false;
    }

    /** `operator[]`: the state before `ins`, replaying only when the cursor
        is elsewhere. */
    method Lookup(ins: nat) returns (s: AbstractState)
      requires code.Some? && ins < |code.value| && CacheAt(currentIns)
      modifies this`currentState, this`currentIns
      ensures CacheAt(ins) && s == Replay(Input(), mergePoints, ins)
      ensures old(currentIns) == ins ==> currentState == old(currentState)
    {
      if ins != currentIns {
        Seek(ins);
      }
      s := currentState.value;
    }

    /** `finalState()`. */
    function FinalState(): (s: AbstractState)
      reads this
      requires finalState.Some?
      ensures Some(s) == finalState
    {
      finalState.value
    }
  }
}
