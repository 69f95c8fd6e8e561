/** The backward driver's semantics on values: the first pass over the code
    (jump origins and exits), the flows a branch of the backward worklist
    walk produces, the post-fixpoint the driver converges to, the invariant
    of the walk, and the retrieval replay of the indexed variant. */
module BackwardWalks {
  import opened Wrappers
  import opened States
  import opened Code
  import opened Analyses
  import opened Samples

  // ---------------------------------------------------------------------
  // The first pass.

  /** The jumps below position `n` that target `l`, in the order of the
      code. */
  function OriginsBelow(code: seq<Instr>, l: nat, n: nat): seq<nat>
    requires n <= |code|
  {
    if n == 0 then []
    else if IsJmp(code[n - 1]) && code[n - 1].target == l then OriginsBelow(code, l, n - 1) + [n - 1]
    else OriginsBelow(code, l, n - 1)
  }

  /** The origins collected below `n` are exactly the jumps to `l` there,
      each once, in increasing order. */
  lemma {:induction false} OriginsBelowAreTheJumps(code: seq<Instr>, l: nat, n: nat)
    requires n <= |code|
    ensures var os := OriginsBelow(code, l, n);
            && (forall i :: 0 <= i < |os| ==> os[i] < n && IsJmp(code[os[i]]) && code[os[i]].target == l)
            && (forall j :: 0 <= j < n && IsJmp(code[j]) && code[j].target == l ==> j in os)
            && (forall i, k :: 0 <= i < k < |os| ==> os[i] < os[k])
  {
    if n > 0 {
      OriginsBelowAreTheJumps(code, l, n - 1);
    }
  }

  /** `jumpOrigins_[l]`, an absent entry being empty. */
  function OriginsIn(origins: map<nat, seq<nat>>, l: nat): seq<nat>
  {
    if l in origins then origins[l] else []
  }

  /** One step of the first pass: a jump at `i` is appended to its target's
      origins, so the table then holds the jumps below `i + 1`. */
  lemma CollectStep(code: seq<Instr>, origins: map<nat, seq<nat>>, i: nat, origins': map<nat, seq<nat>>)
    requires i < |code| && forall l :: OriginsIn(origins, l) == OriginsBelow(code, l, i)
    requires IsJmp(code[i]) ==> origins' == origins[code[i].target := OriginsIn(origins, code[i].target) + [i]]
    requires !IsJmp(code[i]) ==> origins' == origins
    ensures forall l :: OriginsIn(origins', l) == OriginsBelow(code, l, i + 1)
  {
  }

  /** `jumpOrigins_[l]` once the first pass is over: the jumps to `l`. */
  function JumpOrigins(code: seq<Instr>, l: nat): seq<nat>
  {
    OriginsBelow(code, l, |code|)
  }

  /** The backward merge points, the jumps, are exactly the positions the
      label rule may follow: each jump is an origin of its own target and
      nothing else is an origin of any label. */
  lemma MergePointsAreOrigins(code: seq<Instr>, p: nat)
    requires p < |code|
    ensures IsJmp(code[p]) <==> exists l :: p in JumpOrigins(code, l)
  {
    if IsJmp(code[p]) {
      OriginsBelowAreTheJumps(code, code[p].target, |code|);
      assert p in JumpOrigins(code, code[p].target);
    } else {
      forall l ensures p !in JumpOrigins(code, l) {
        OriginsBelowAreTheJumps(code, l, |code|);
      }
    }
  }

  /** The exits below position `n`, the last one first: the worklist the
      first pass leaves. */
  function ExitsBelow(code: seq<Instr>, n: nat): seq<nat>
    requires n <= |code|
  {
    if n == 0 then []
    else if code[n - 1].Exit? then [n - 1] + ExitsBelow(code, n - 1)
    else ExitsBelow(code, n - 1)
  }

  /** The worklist the first pass leaves holds exactly the exits, each
      once, the last one at the front. */
  lemma {:induction false} ExitsBelowAreTheExits(code: seq<Instr>, n: nat)
    requires n <= |code|
    ensures forall i :: 0 <= i < |ExitsBelow(code, n)| ==> ExitsBelow(code, n)[i] < n
    ensures forall i :: 0 <= i < |ExitsBelow(code, n)| ==> code[ExitsBelow(code, n)[i]].Exit?
    ensures forall e :: 0 <= e < n && code[e].Exit? ==> e in ExitsBelow(code, n)
    ensures forall i, k :: 0 <= i < k < |ExitsBelow(code, n)| ==> ExitsBelow(code, n)[i] > ExitsBelow(code, n)[k]
  {
    if n > 0 {
      ExitsBelowAreTheExits(code, n - 1);
      var rest := ExitsBelow(code, n - 1);
      if code[n - 1].Exit? {
        var es := [n - 1] + rest;
        forall i, k | 0 <= i < k < |es| ensures es[i] > es[k] {
          assert es[k] == rest[k - 1];
          if i > 0 {
            assert es[i] == rest[i - 1];
          }
        }
      }
    }
  }

  // ---------------------------------------------------------------------
  // The label rule.

  /** The states stored at the jumps `js` have the depth of `s`. */
  predicate DepthsAgree(mp: Table, js: seq<nat>, s: AbstractState)
  {
    forall j :: j in js && j in mp ==> Depth(mp[j]) == Depth(s)
  }

  /** The label rule on the table and the worklist: `shouldFollowJumpFrom`
      for each of the jumps `js` in turn, each one it admits put at the
      front of the worklist. */
  function EnqueueAll(mp: Table, q: seq<nat>, js: seq<nat>, s: AbstractState): (r: (Table, seq<nat>))
    requires DepthsAgree(mp, js, s)
    decreases |js|
  {
    if js == [] then
      (mp, q)
    else
      var (mp', q') := Enqueue(mp, q, js[0], s);
      assert forall j :: j in js[1..] ==> j in js;
      EnqueueAll(mp', q', js[1..], s)
  }

  /** The label rule stores a state at each of the jumps `js` and only
      ever raises the states already stored. */
  lemma {:induction false} EnqueueAllGrows(mp: Table, q: seq<nat>, js: seq<nat>, s: AbstractState)
    requires DepthsAgree(mp, js, s)
    ensures var r := EnqueueAll(mp, q, js, s);
            && (forall k :: k in r.0 <==> k in mp || k in js)
            && Grows(mp, r.0)
    decreases |js|
  {
    if js == [] {
      GrowsReflexive(mp, None);
    } else {
      var (mp', q') := Enqueue(mp, q, js[0], s);
      assert js[0..] == js;
      EnqueueAllStep(mp, q, js, 0, s);
      EnqueueAllGrows(mp', q', js[1..], s);
      var r := EnqueueAll(mp', q', js[1..], s);
      GrowsTransitive(mp, mp', r.0);
      assert forall k :: k in js <==> k == js[0] || k in js[1..];
    }
  }

  /** After the label rule every one of the jumps holds (an upper bound of)
      `s`. */
  lemma {:induction false} EnqueueAllCovers(mp: Table, q: seq<nat>, js: seq<nat>, s: AbstractState)
    requires DepthsAgree(mp, js, s)
    ensures var r := EnqueueAll(mp, q, js, s);
            forall j :: j in js ==> j in r.0 && StateLeq(s, r.0[j])
    decreases |js|
  {
    if js != [] {
      var (mp', q') := Enqueue(mp, q, js[0], s);
      assert js[0..] == js;
      EnqueueAllStep(mp, q, js, 0, s);
      EnqueueAllCovers(mp', q', js[1..], s);
      EnqueueAllGrows(mp', q', js[1..], s);
      var r := EnqueueAll(mp', q', js[1..], s);
      forall j | j in js ensures j in r.0 && StateLeq(s, r.0[j]) {
        if j == js[0] {
          StateLeqTransitive(s, mp'[j], r.0[j]);
        } else {
          assert j in js[1..];
        }
      }
    }
  }

  /** The label rule, one jump at a time: from the `i`-th jump on. */
  lemma EnqueueAllStep(mp: Table, q: seq<nat>, js: seq<nat>, i: nat, s: AbstractState)
    requires i < |js| && DepthsAgree(mp, js[i..], s)
    ensures var r := Enqueue(mp, q, js[i], s);
            && DepthsAgree(r.0, js[i + 1..], s)
            && (js[i] in mp ==> Depth(mp[js[i]]) == Depth(s))
            && EnqueueAll(r.0, r.1, js[i + 1..], s) == EnqueueAll(mp, q, js[i..], s)
  {
    assert js[i..][0] == js[i] && js[i..][1..] == js[i + 1..];
    assert forall j :: j in js[i + 1..] ==> j in js[i..];
  }

  /** The stored states at the jumps to a label have the depth of the state
      flowing into them from the label. */
  lemma OriginsAgreeInDepth(c: Ctx, h: seq<nat>, hFinal: nat, mp: Table, f: Option<AbstractState>, p: nat, s': AbstractState)
    requires Tables(c, h, hFinal, mp, f) && p < |c.code| && c.code[p].Label?
    requires StepBalanced(c.code, h, hFinal, p, s')
    ensures DepthsAgree(mp, JumpOrigins(c.code, p), s')
  {
    OriginsBelowAreTheJumps(c.code, p, |c.code|);
  }

  // ---------------------------------------------------------------------
  // The flows of the backward walk.

  /** The walk goes on from `p` to `p - 1`: not at the entry point, and at a
      label only when the instruction before it can reach it. */
  predicate FlowsBack(code: seq<Instr>, p: nat)
    requires p < |code|
  {
    p > 0 && (code[p].Label? ==> !code[p - 1].Exit? && p in Next(code, p - 1))
  }

  /** One flow into each of the jumps `os`, all with state `s`. */
  function IntoEach(os: seq<nat>, s: AbstractState): (es: seq<Edge>)
  {
    seq(|os|, i requires 0 <= i < |os| => Into(os[i], s))
  }

  /** The flows produced by walking backwards from `p` with state `s`, `s`
      being the state after any merge at `p`: dispatch, then at a label a
      flow into every jump to it, then either the final state (at the entry
      point) or the walk from `p - 1`. */
  function Walk(code: seq<Instr>, T: Transfer, p: nat, s: AbstractState): seq<Edge>
    requires p < |code|
    decreases p, 1
  {
    var s' := T(code[p], s);
    (if code[p].Label? then IntoEach(JumpOrigins(code, p), s') else []) + Onward(code, T, p, s')
  }

  /** After dispatch and any label flows at `p`, with state `s'`. */
  function Onward(code: seq<Instr>, T: Transfer, p: nat, s': AbstractState): seq<Edge>
    requires p < |code|
    decreases p, 0
  {
    if p == 0 then [ToFinal(s')]
    else if FlowsBack(code, p) then Cont(code, T, p - 1, s')
    else []
  }

  /** Arriving at `p` with state `s`: a jump is a merge point, the flow ends
      there; anything else is walked. */
  function Cont(code: seq<Instr>, T: Transfer, p: nat, s: AbstractState): seq<Edge>
    requires p < |code|
    decreases p, 2
  {
    if IsJmp(code[p]) then [Into(p, s)] else Walk(code, T, p, s)
  }

  /** The depth discipline at `p` for the state `s'` after dispatch: the
      depth of every jump to a label, of the final state at the entry
      point, and of the previous position when the walk goes on there. */
  ghost predicate StepBalanced(code: seq<Instr>, h: seq<nat>, hFinal: nat, p: nat, s': AbstractState)
    requires |h| == |code| && p < |code|
  {
    && (code[p].Label? ==>
          forall j :: 0 <= j < |code| && IsJmp(code[j]) && code[j].target == p ==> Depth(s') == h[j])
    && (p == 0 ==> Depth(s') == hFinal)
    && (FlowsBack(code, p) ==> Depth(s') == h[p - 1])
  }

  /** What the backward driver needs of its input: an exit is followed by a
      label (so a walk never runs into an exit), and the transfer function
      keeps to the depths `h` (the initial state having the depth of every
      exit, `hFinal` that of the final state). */
  ghost predicate WellFormed(c: Ctx, h: seq<nat>, hFinal: nat)
  {
    && ExitsFollowedByLabels(c.code)
    && |h| == |c.code|
    && (forall e :: 0 <= e < |c.code| && c.code[e].Exit? ==> Depth(c.init) == h[e])
    && forall p: nat, s :: p < |c.code| && Depth(s) == h[p] ==>
         StepBalanced(c.code, h, hFinal, p, c.transfer(c.code[p], s))
  }

  /** The walk from exit `e` with the initial state is covered. */
  ghost predicate ExitSettled(c: Ctx, mp: Table, final: Option<AbstractState>, e: nat)
    requires e < |c.code|
  {
    AllCovered(Walk(c.code, c.transfer, e, c.init), mp, final)
  }

  /** The walk from the stored jump `j` is covered. */
  ghost predicate Settled(c: Ctx, mp: Table, final: Option<AbstractState>, j: nat)
  {
    j in mp && j < |c.code| && AllCovered(Walk(c.code, c.transfer, j, mp[j]), mp, final)
  }

  /** A post-fixpoint: merge points are jumps, and every flow from every
      exit and from every stored jump is covered by the table and the
      final state. */
  ghost predicate PostFixpoint(c: Ctx, mp: Table, final: Option<AbstractState>)
  {
    && (forall e :: 0 <= e < |c.code| && c.code[e].Exit? ==> ExitSettled(c, mp, final, e))
    && forall j :: j in mp ==> j < |c.code| && IsJmp(c.code[j]) && Settled(c, mp, final, j)
  }

  // ---------------------------------------------------------------------
  // The invariant of the worklist walk.

  /** Where the branch being walked started: at an exit with the initial
      state, or at a jump with the state stored there when the walk left it. */
  datatype Origin = FromExit(exit: nat) | FromJump(at: nat, state: AbstractState)

  function Start(o: Origin): nat
  {
    if o.FromExit? then o.exit else o.at
  }

  function OriginEdges(c: Ctx, o: Origin): seq<Edge>
    requires Start(o) < |c.code|
  {
    match o
    case FromExit(e) => Walk(c.code, c.transfer, e, c.init)
    case FromJump(j, s) => Walk(c.code, c.transfer, j, s)
  }

  /** Stored states sit at jumps with the depth of their position. */
  ghost predicate Tables(c: Ctx, h: seq<nat>, hFinal: nat, mp: Table, final: Option<AbstractState>)
  {
    && |h| == |c.code|
    && (forall j :: j in mp ==> j < |c.code| && IsJmp(c.code[j]) && Depth(mp[j]) == h[j])
    && (final.Some? ==> Depth(final.value) == hFinal)
  }

  /** Every enqueued position is an exit or a stored jump. */
  ghost predicate Queued(c: Ctx, mp: Table, q: seq<nat>)
  {
    forall i :: 0 <= i < |q| ==> q[i] < |c.code| && (c.code[q[i]].Exit? || q[i] in mp)
  }

  /** Every stored jump and every exit is enqueued, settled, or the start of
      the branch being walked. */
  ghost predicate Pending(c: Ctx, mp: Table, final: Option<AbstractState>, q: seq<nat>, walked: Option<nat>)
  {
    && (forall j :: j in mp ==> j in q || walked == Some(j) || Settled(c, mp, final, j))
    && (forall e :: 0 <= e < |c.code| && c.code[e].Exit? ==>
          e in q || walked == Some(e) || ExitSettled(c, mp, final, e))
  }

  /** Between branches. */
  ghost predicate Idle(c: Ctx, h: seq<nat>, hFinal: nat, mp: Table, final: Option<AbstractState>, q: seq<nat>)
  {
    && Tables(c, h, hFinal, mp, final)
    && Queued(c, mp, q)
    && Pending(c, mp, final, q, None)
  }

  /** Position `p` has just been taken off the queue, with no current state. */
  ghost predicate Resuming(c: Ctx, h: seq<nat>, hFinal: nat, mp: Table, final: Option<AbstractState>, q: seq<nat>, p: nat)
  {
    && Tables(c, h, hFinal, mp, final)
    && Queued(c, mp, q)
    && p < |c.code| && (c.code[p].Exit? || p in mp)
    && Pending(c, mp, final, q, Some(p))
  }

  /** After the exit and merge-point rules at `p`: either the walk goes on
      from `p` with the state `cur`, or the branch has ended. */
  ghost predicate Arrived(c: Ctx, h: seq<nat>, hFinal: nat, mp: Table, final: Option<AbstractState>, q: seq<nat>,
                          origin: Origin, done: seq<Edge>, goOn: bool, p: nat, cur: Option<AbstractState>)
  {
    if goOn then
      && p < |c.code| == |h| && cur.Some? && Depth(cur.value) == h[p]
      && Walking(c, h, hFinal, mp, final, q, origin, done, Walk(c.code, c.transfer, p, cur.value))
    else
      cur.None? && Idle(c, h, hFinal, mp, final, q)
  }

  /** After the backward walk leaves a position: either it goes on at `p`
      with the state `cur`, arriving there from the position after it, or
      the branch has ended. */
  ghost predicate Continues(c: Ctx, h: seq<nat>, hFinal: nat, mp: Table, final: Option<AbstractState>, q: seq<nat>,
                            origin: Origin, done: seq<Edge>, goOn: bool, p: int, cur: Option<AbstractState>)
  {
    if goOn then
      && 0 <= p < |c.code| == |h| && cur.Some? && !c.code[p].Exit? && Depth(cur.value) == h[p]
      && Walking(c, h, hFinal, mp, final, q, origin, done, Cont(c.code, c.transfer, p, cur.value))
    else
      cur.None? && Idle(c, h, hFinal, mp, final, q)
  }

  /** A branch from `origin` has produced the covered flows `done`, and
      `rest` are the ones still to come. */
  ghost predicate Walking(c: Ctx, h: seq<nat>, hFinal: nat, mp: Table, final: Option<AbstractState>, q: seq<nat>,
                          origin: Origin, done: seq<Edge>, rest: seq<Edge>)
  {
    && Tables(c, h, hFinal, mp, final)
    && Queued(c, mp, q)
    && Start(origin) < |c.code|
    && (origin.FromExit? ==> c.code[origin.exit].Exit?)
    && (origin.FromJump? ==> origin.at in mp && (mp[origin.at] == origin.state || origin.at in q))
    && OriginEdges(c, origin) == done + rest
    && AllCovered(done, mp, final)
    && Pending(c, mp, final, q, Some(Start(origin)))
  }

  lemma SettledIsMonotone(c: Ctx, mp: Table, f: Option<AbstractState>, mp': Table, f': Option<AbstractState>, j: nat)
    requires Settled(c, mp, f, j)
    requires Grows(mp, mp') && FinalGrows(f, f') && j in mp' && mp'[j] == mp[j]
    ensures Settled(c, mp', f', j)
  {
    CoverageIsMonotone(Walk(c.code, c.transfer, j, mp[j]), mp, f, mp', f');
  }

  lemma ExitSettledIsMonotone(c: Ctx, mp: Table, f: Option<AbstractState>, mp': Table, f': Option<AbstractState>, e: nat)
    requires e < |c.code| && ExitSettled(c, mp, f, e)
    requires Grows(mp, mp') && FinalGrows(f, f')
    ensures ExitSettled(c, mp', f', e)
  {
    CoverageIsMonotone(Walk(c.code, c.transfer, e, c.init), mp, f, mp', f');
  }

  /** Pending survives a step that grows the tables, keeps what was queued
      and queues every jump whose stored state changed, provided the start
      of the branch, if it is no longer walked, is queued or settled. */
  lemma PendingKept(c: Ctx, mp: Table, f: Option<AbstractState>, q: seq<nat>, x: Option<nat>,
                    mp': Table, f': Option<AbstractState>, q': seq<nat>, x': Option<nat>)
    requires Pending(c, mp, f, q, x)
    requires Grows(mp, mp') && FinalGrows(f, f')
    requires forall l :: l in q ==> l in q'
    requires forall l :: l in mp' ==> (l in mp && mp'[l] == mp[l]) || l in q' || x' == Some(l)
    requires x.Some? && x' != x && x.value !in q' ==>
               && (x.value in mp' ==> Settled(c, mp', f', x.value))
               && (x.value < |c.code| && c.code[x.value].Exit? ==> ExitSettled(c, mp', f', x.value))
    ensures Pending(c, mp', f', q', x')
  {
    forall j | j in mp' ensures j in q' || x' == Some(j) || Settled(c, mp', f', j) {
      if j !in q' && x' != Some(j) && x != Some(j) {
        SettledIsMonotone(c, mp, f, mp', f', j);
      }
    }
    forall e | 0 <= e < |c.code| && c.code[e].Exit?
      ensures e in q' || x' == Some(e) || ExitSettled(c, mp', f', e)
    {
      if e !in q' && x' != Some(e) && x != Some(e) {
        ExitSettledIsMonotone(c, mp, f, mp', f', e);
      }
    }
  }

  // Transitions of the walk.

  /** After the first pass: nothing stored, every exit queued. */
  lemma StartIdle(c: Ctx, h: seq<nat>, hFinal: nat)
    requires WellFormed(c, h, hFinal)
    ensures Idle(c, h, hFinal, map[], None, ExitsBelow(c.code, |c.code|))
  {
    ExitsBelowAreTheExits(c.code, |c.code|);
  }

  lemma TakeFromQueue(c: Ctx, h: seq<nat>, hFinal: nat, mp: Table, f: Option<AbstractState>, q: seq<nat>)
    requires Idle(c, h, hFinal, mp, f, q) && |q| > 0
    ensures Resuming(c, h, hFinal, mp, f, q[1..], q[0])
  {
    forall l | l in q && l != q[0] ensures l in q[1..] {
      var i :| 0 <= i < |q| && q[i] == l;
      assert q[1..][i - 1] == l;
    }
  }

  /** At an exit taken off the queue: start from the initial state. */
  lemma BeginAtExit(c: Ctx, h: seq<nat>, hFinal: nat, mp: Table, f: Option<AbstractState>, q: seq<nat>, p: nat)
    requires Resuming(c, h, hFinal, mp, f, q, p) && c.code[p].Exit?
    ensures Walking(c, h, hFinal, mp, f, q, FromExit(p), [], Walk(c.code, c.transfer, p, c.init))
  {
    assert Walk(c.code, c.transfer, p, c.init) == [] + Walk(c.code, c.transfer, p, c.init);
  }

  /** At a jump taken off the queue: take over its stored state. */
  lemma AdoptStored(c: Ctx, h: seq<nat>, hFinal: nat, mp: Table, f: Option<AbstractState>, q: seq<nat>, p: nat)
    requires Resuming(c, h, hFinal, mp, f, q, p) && !c.code[p].Exit?
    ensures p in mp
    ensures Walking(c, h, hFinal, mp, f, q, FromJump(p, mp[p]), [], Walk(c.code, c.transfer, p, mp[p]))
  {
    assert Walk(c.code, c.transfer, p, mp[p]) == [] + Walk(c.code, c.transfer, p, mp[p]);
  }

  /** A branch goes on past its flow `e`, which the grown tables cover. */
  lemma Cover(c: Ctx, h: seq<nat>, hFinal: nat, mp: Table, f: Option<AbstractState>, q: seq<nat>,
              origin: Origin, done: seq<Edge>, e: Edge, rest: seq<Edge>,
              mp': Table, f': Option<AbstractState>, q': seq<nat>)
    requires Walking(c, h, hFinal, mp, f, q, origin, done, [e] + rest)
    requires Covered(e, mp', f') && Grows(mp, mp') && FinalGrows(f, f') && forall l :: l in q ==> l in q'
    requires Tables(c, h, hFinal, mp', f') && Queued(c, mp', q')
    requires forall l :: l in mp' ==> (l in mp && mp'[l] == mp[l]) || l in q'
    ensures Walking(c, h, hFinal, mp', f', q', origin, done + [e], rest)
  {
    CoverageIsMonotone(done, mp, f, mp', f');
    CoveredAppend(done, e, mp', f');
    Reassociate(done, e, rest);
    var x := Some(Start(origin));
    PendingKept(c, mp, f, q, x, mp', f', q', x);
  }

  /** Moving one flow from those to come to those done. */
  lemma Reassociate(done: seq<Edge>, e: Edge, rest: seq<Edge>)
    ensures done + ([e] + rest) == (done + [e]) + rest
  {
  }

  /** A branch that begins has done nothing yet. */
  lemma Prepend(rest: seq<Edge>)
    ensures [] + rest == rest
  {
  }

  /** A branch whose flows are all covered ends. */
  lemma Finish(c: Ctx, h: seq<nat>, hFinal: nat, mp: Table, f: Option<AbstractState>, q: seq<nat>,
               origin: Origin, done: seq<Edge>)
    requires Walking(c, h, hFinal, mp, f, q, origin, done, [])
    ensures Idle(c, h, hFinal, mp, f, q)
  {
    assert OriginEdges(c, origin) == done;
    GrowsReflexive(mp, f);
    PendingKept(c, mp, f, q, Some(Start(origin)), mp, f, q, None);
  }

  /** A stored jump put at the front of the worklist keeps it well formed. */
  lemma PushQueued(c: Ctx, mp: Table, q: seq<nat>, j: nat)
    requires Queued(c, mp, q) && j < |c.code| && j in mp
    ensures Queued(c, mp, [j] + q)
  {
    forall i | 0 < i < |q| + 1 ensures ([j] + q)[i] == q[i - 1] {
    }
  }

  /** Storing a state of the right depth at a jump keeps the tables in shape. */
  lemma StoreKeepsTables(c: Ctx, h: seq<nat>, hFinal: nat, mp: Table, f: Option<AbstractState>, q: seq<nat>,
                         mp': Table, p: nat)
    requires Tables(c, h, hFinal, mp, f) && Queued(c, mp, q)
    requires p < |c.code| && IsJmp(c.code[p]) && mp'.Keys == mp.Keys + {p} && Depth(mp'[p]) == h[p]
    requires forall l :: l in mp && l != p ==> mp'[l] == mp[l]
    ensures Tables(c, h, hFinal, mp', f) && Queued(c, mp', q)
  {
  }

  /** Arriving at a jump whose stored state changed (or is new): the branch
      so far ends with a covered flow into the jump, and a branch from the
      jump begins. */
  lemma EnterJump(c: Ctx, h: seq<nat>, hFinal: nat, mp: Table, f: Option<AbstractState>, q: seq<nat>,
                  origin: Origin, done: seq<Edge>, p: nat, s: AbstractState, mp': Table, s': AbstractState)
    requires p < |c.code| && IsJmp(c.code[p])
    requires Walking(c, h, hFinal, mp, f, q, origin, done, [Into(p, s)])
    requires Grows(mp, mp') && mp'.Keys == mp.Keys + {p} && StateLeq(s, mp'[p]) && mp'[p] == s'
    requires forall l :: l in mp && l != p ==> mp'[l] == mp[l]
    requires Depth(s') == h[p]
    ensures Walking(c, h, hFinal, mp', f, q, FromJump(p, s'), [], Walk(c.code, c.transfer, p, s'))
  {
    GrowsReflexive(mp, f);
    StoreKeepsTables(c, h, hFinal, mp, f, q, mp', p);
    CoverageIsMonotone(done, mp, f, mp', f);
    CoveredAppend(done, Into(p, s), mp', f);
    PendingKept(c, mp, f, q, Some(Start(origin)), mp', f, q, Some(p));
    Prepend(Walk(c.code, c.transfer, p, s'));
  }

  /** Arriving at a jump with no stored state: the incoming state is stored
      and the walk goes on from it. */
  lemma StoreAtJump(c: Ctx, h: seq<nat>, hFinal: nat, mp: Table, f: Option<AbstractState>, q: seq<nat>,
                    origin: Origin, done: seq<Edge>, p: nat, s: AbstractState)
    requires p < |c.code| == |h| && IsJmp(c.code[p]) && p !in mp && Depth(s) == h[p]
    requires Walking(c, h, hFinal, mp, f, q, origin, done, Cont(c.code, c.transfer, p, s))
    ensures Walking(c, h, hFinal, mp[p := s], f, q, FromJump(p, s), [], Walk(c.code, c.transfer, p, s))
  {
    StateLeqReflexive(s);
    GrowsReflexive(mp, f);
    EnterJump(c, h, hFinal, mp, f, q, origin, done, p, s, mp[p := s], s);
  }

  /** Arriving at a jump with a stored state: the incoming state is merged
      in; if the stored state changed the walk goes on from it, otherwise
      the branch is abandoned. */
  lemma MergeAtJump(c: Ctx, h: seq<nat>, hFinal: nat, mp: Table, f: Option<AbstractState>, q: seq<nat>,
                    origin: Origin, done: seq<Edge>, p: nat, s: AbstractState)
    requires p < |c.code| == |h| && IsJmp(c.code[p]) && p in mp && Depth(s) == h[p]
    requires Walking(c, h, hFinal, mp, f, q, origin, done, Cont(c.code, c.transfer, p, s))
    ensures Depth(mp[p]) == Depth(s)
    ensures var (m, changed) := StateMerge(mp[p], s);
            && (changed ==> Walking(c, h, hFinal, mp[p := m], f, q, FromJump(p, m), [], Walk(c.code, c.transfer, p, m)))
            && (!changed ==> Idle(c, h, hFinal, mp[p := m], f, q))
  {
    var (m, changed) := StateMerge(mp[p], s);
    GrowsReflexive(mp, f);
    if changed {
      EnterJump(c, h, hFinal, mp, f, q, origin, done, p, s, mp[p := m], m);
    } else {
      assert mp[p := m] == mp;
      Abandon(c, h, hFinal, mp, f, q, origin, done, p, s);
    }
  }

  /** Arriving at a jump whose stored state already covers the branch: the
      branch is abandoned. */
  lemma Abandon(c: Ctx, h: seq<nat>, hFinal: nat, mp: Table, f: Option<AbstractState>, q: seq<nat>,
                origin: Origin, done: seq<Edge>, p: nat, s: AbstractState)
    requires Walking(c, h, hFinal, mp, f, q, origin, done, [Into(p, s)])
    requires p in mp && StateLeq(s, mp[p])
    ensures Idle(c, h, hFinal, mp, f, q)
  {
    GrowsReflexive(mp, f);
    Cover(c, h, hFinal, mp, f, q, origin, done, Into(p, s), [], mp, f, q);
    Finish(c, h, hFinal, mp, f, q, origin, done + [Into(p, s)]);
  }

  /** `shouldFollowJumpFrom` stores or merges the flow into origin `j`, and
      the driver queues `j` when its state is new or changed. */
  lemma FollowOrigin(c: Ctx, h: seq<nat>, hFinal: nat, mp: Table, f: Option<AbstractState>, q: seq<nat>,
                     origin: Origin, done: seq<Edge>, j: nat, s': AbstractState, rest: seq<Edge>,
                     mp': Table, follow: bool, q': seq<nat>)
    requires Walking(c, h, hFinal, mp, f, q, origin, done, [Into(j, s')] + rest)
    requires j < |c.code| && IsJmp(c.code[j]) && Depth(s') == h[j]
    requires j in mp ==> Depth(mp[j]) == Depth(s')
    requires (mp', follow) == StoreOrMerge(mp, j, s') && q' == if follow then [j] + q else q
    ensures Walking(c, h, hFinal, mp', f, q', origin, done + [Into(j, s')], rest)
  {
    GrowsReflexive(mp, f);
    StoreKeepsTables(c, h, hFinal, mp, f, q, mp', j);
    if follow {
      PushQueued(c, mp', q, j);
    }
    Cover(c, h, hFinal, mp, f, q, origin, done, Into(j, s'), rest, mp', f, q');
  }

  /** At the entry point the state is folded into the final state, and the
      branch ends. */
  lemma ReachEntry(c: Ctx, h: seq<nat>, hFinal: nat, mp: Table, f: Option<AbstractState>, q: seq<nat>,
                   origin: Origin, done: seq<Edge>, s': AbstractState)
    requires Walking(c, h, hFinal, mp, f, q, origin, done, [ToFinal(s')])
    requires Depth(s') == hFinal
    ensures f.Some? ==> Depth(f.value) == Depth(s')
    ensures Idle(c, h, hFinal, mp, Some(FoldFinal(f, s')), q)
  {
    var f' := Some(FoldFinal(f, s'));
    GrowsReflexive(mp, f);
    Cover(c, h, hFinal, mp, f, q, origin, done, ToFinal(s'), [], mp, f', q);
    Finish(c, h, hFinal, mp, f', q, origin, done + [ToFinal(s')]);
  }

  /** The flows from the `i`-th on, followed by `tail`, one at a time. */
  lemma FlowsSplit(flows: seq<Edge>, i: nat, tail: seq<Edge>)
    requires i <= |flows|
    ensures i == 0 ==> flows[i..] + tail == flows + tail
    ensures i == |flows| ==> flows[i..] + tail == tail
    ensures i < |flows| ==> flows[i..] + tail == [flows[i]] + (flows[i + 1..] + tail)
  {
    if i < |flows| {
      assert flows[i..] == [flows[i]] + flows[i + 1..];
    }
  }

  /** Every jump to the label `p` can take the state `s'` leaving it. */
  lemma OriginsFollowed(c: Ctx, h: seq<nat>, hFinal: nat, p: nat, s': AbstractState)
    requires |h| == |c.code| && p < |c.code| && c.code[p].Label? && StepBalanced(c.code, h, hFinal, p, s')
    ensures var os := JumpOrigins(c.code, p);
            forall i :: 0 <= i < |os| ==> os[i] < |c.code| && IsJmp(c.code[os[i]]) && Depth(s') == h[os[i]]
  {
    OriginsBelowAreTheJumps(c.code, p, |c.code|);
  }

  /** The label rule covers the flows into every jump to the label. */
  lemma {:induction false} FollowAllOrigins(c: Ctx, h: seq<nat>, hFinal: nat, mp: Table, f: Option<AbstractState>,
                                            q: seq<nat>, origin: Origin, done: seq<Edge>, os: seq<nat>,
                                            s': AbstractState, tail: seq<Edge>)
    requires |h| == |c.code|
    requires forall i :: 0 <= i < |os| ==> os[i] < |c.code| && IsJmp(c.code[os[i]]) && Depth(s') == h[os[i]]
    requires DepthsAgree(mp, os, s')
    requires Walking(c, h, hFinal, mp, f, q, origin, done, IntoEach(os, s') + tail)
    ensures var r := EnqueueAll(mp, q, os, s');
            Walking(c, h, hFinal, r.0, f, r.1, origin, done + IntoEach(os, s'), tail)
    decreases |os|
  {
    IntoEachSplit(os, s', done, tail);
    if os != [] {
      var j := os[0];
      var (mp', follow) := StoreOrMerge(mp, j, s');
      var q' := if follow then [j] + q else q;
      FollowOrigin(c, h, hFinal, mp, f, q, origin, done, j, s', IntoEach(os[1..], s') + tail, mp', follow, q');
      EnqueueAllStep(mp, q, os, 0, s');
      FollowAllOrigins(c, h, hFinal, mp', f, q', origin, done + [Into(j, s')], os[1..], s', tail);
    }
  }

  /** The flows into the jumps `os`, the first one apart. */
  lemma IntoEachSplit(os: seq<nat>, s': AbstractState, done: seq<Edge>, tail: seq<Edge>)
    ensures os == [] ==> done + IntoEach(os, s') == done && IntoEach(os, s') + tail == tail
    ensures os != [] ==> && os[0..] == os
                         && IntoEach(os, s') + tail == [Into(os[0], s')] + (IntoEach(os[1..], s') + tail)
                         && done + [Into(os[0], s')] + IntoEach(os[1..], s') == done + IntoEach(os, s')
                         && forall i :: 0 <= i < |os| - 1 ==> os[1..][i] == os[i + 1]
  {
    if os == [] {
      assert IntoEach(os, s') == [];
    } else {
      assert IntoEach(os, s') == [Into(os[0], s')] + IntoEach(os[1..], s');
    }
  }

  /** The depth discipline at one position. */
  lemma Balanced(c: Ctx, h: seq<nat>, hFinal: nat, p: nat, s: AbstractState)
    requires WellFormed(c, h, hFinal) && p < |c.code| && Depth(s) == h[p]
    ensures StepBalanced(c.code, h, hFinal, p, c.transfer(c.code[p], s))
  {
  }

  /** Dispatch at `p`: the flows still to cover are those into the label's
      origins (at a label) followed by those onward. */
  lemma Dispatched(c: Ctx, h: seq<nat>, hFinal: nat, mp: Table, f: Option<AbstractState>, q: seq<nat>,
                   origin: Origin, done: seq<Edge>, p: nat, s: AbstractState)
    requires |h| == |c.code| && p < |c.code| && StepBalanced(c.code, h, hFinal, p, c.transfer(c.code[p], s))
    requires Walking(c, h, hFinal, mp, f, q, origin, done, Walk(c.code, c.transfer, p, s))
    ensures var s' := c.transfer(c.code[p], s);
            && (c.code[p].Label? ==>
                  Walking(c, h, hFinal, mp, f, q, origin, done,
                          IntoEach(JumpOrigins(c.code, p), s') + Onward(c.code, c.transfer, p, s')))
            && (!c.code[p].Label? ==>
                  Walking(c, h, hFinal, mp, f, q, origin, done, Onward(c.code, c.transfer, p, s')))
  {
    var s' := c.transfer(c.code[p], s);
    var onward := Onward(c.code, c.transfer, p, s');
    if c.code[p].Label? {
      assert Walk(c.code, c.transfer, p, s) == IntoEach(JumpOrigins(c.code, p), s') + onward;
    } else {
      assert Walk(c.code, c.transfer, p, s) == [] + onward == onward;
    }
  }

  /** The flows into the origins of a label: each is a jump with the depth
      of the state after the label. */
  lemma OriginFacts(c: Ctx, h: seq<nat>, hFinal: nat, p: nat, s': AbstractState, i: nat)
    requires |h| == |c.code| && p < |c.code| && c.code[p].Label? && StepBalanced(c.code, h, hFinal, p, s')
    requires i < |JumpOrigins(c.code, p)|
    ensures var j := JumpOrigins(c.code, p)[i]; j < |c.code| && IsJmp(c.code[j]) && Depth(s') == h[j]
  {
    OriginsBelowAreTheJumps(c.code, p, |c.code|);
  }

  /** Going on to `p - 1`: a walk never runs into an exit, and the flows
      still to cover are those from `p - 1`. */
  lemma StepBack(c: Ctx, h: seq<nat>, hFinal: nat, mp: Table, f: Option<AbstractState>, q: seq<nat>,
                 origin: Origin, done: seq<Edge>, p: nat, s': AbstractState)
    requires ExitsFollowedByLabels(c.code) && |h| == |c.code| && p < |c.code|
    requires FlowsBack(c.code, p) && StepBalanced(c.code, h, hFinal, p, s')
    requires Walking(c, h, hFinal, mp, f, q, origin, done, Onward(c.code, c.transfer, p, s'))
    ensures !c.code[p - 1].Exit? && Depth(s') == h[p - 1]
    ensures Walking(c, h, hFinal, mp, f, q, origin, done, Cont(c.code, c.transfer, p - 1, s'))
  {
  }

  /** An empty queue between branches: the tables are a post-fixpoint. */
  lemma IdleAtEmptyQueue(c: Ctx, h: seq<nat>, hFinal: nat, mp: Table, f: Option<AbstractState>)
    requires Idle(c, h, hFinal, mp, f, [])
    ensures PostFixpoint(c, mp, f)
  {
  }

  // ---------------------------------------------------------------------
  // The retrieval cache of the indexed variant.

  /** The state the cache dispatches at `k`: the initial state at an exit
      and past the end, the stored fixpoint at a stored jump, and otherwise
      the state the cache holds at `k + 1`. */
  function Pre(c: Ctx, mp: Table, k: nat): AbstractState
    requires k < |c.code|
    decreases |c.code| - k, 0
  {
    if c.code[k].Exit? then c.init
    else if IsJmp(c.code[k]) && k in mp then mp[k]
    else if k == |c.code| - 1 then c.init
    else Replay(c, mp, k + 1)
  }

  /** The state the cache holds with its cursor at `k`: the state before
      the instruction at `k` in the code's own order. */
  function Replay(c: Ctx, mp: Table, k: nat): AbstractState
    requires k < |c.code|
    decreases |c.code| - k, 1
  {
    c.transfer(c.code[k], Pre(c, mp, k))
  }

  /** Positions the driver walks: exits, stored jumps, and positions the
      walk reaches from a walked position after them. */
  ghost predicate Reached(c: Ctx, mp: Table, k: nat)
    requires k < |c.code|
    decreases |c.code| - k
  {
    if c.code[k].Exit? then true
    else if IsJmp(c.code[k]) then k in mp
    else k + 1 < |c.code| && FlowsBack(c.code, k + 1) && Reached(c, mp, k + 1)
  }

  /** Both parts of covered flows are covered. */
  lemma CoveredParts(a: seq<Edge>, b: seq<Edge>, mp: Table, f: Option<AbstractState>)
    requires AllCovered(a + b, mp, f)
    ensures AllCovered(a, mp, f) && AllCovered(b, mp, f)
  {
    assert forall i :: 0 <= i < |a| ==> a[i] == (a + b)[i];
    assert forall i :: 0 <= i < |b| ==> b[i] == (a + b)[|a| + i];
  }

  /** The flows of a walk include those of the walk it goes on to. */
  lemma FlowBackCovered(c: Ctx, mp: Table, f: Option<AbstractState>, p: nat, s: AbstractState)
    requires 0 < p < |c.code| && FlowsBack(c.code, p) && !IsJmp(c.code[p - 1])
    requires AllCovered(Walk(c.code, c.transfer, p, s), mp, f)
    ensures AllCovered(Walk(c.code, c.transfer, p - 1, c.transfer(c.code[p], s)), mp, f)
  {
    var s' := c.transfer(c.code[p], s);
    var pre := if c.code[p].Label? then IntoEach(JumpOrigins(c.code, p), s') else [];
    assert Walk(c.code, c.transfer, p, s) == pre + Onward(c.code, c.transfer, p, s');
    CoveredParts(pre, Onward(c.code, c.transfer, p, s'), mp, f);
    assert Onward(c.code, c.transfer, p, s') == Cont(c.code, c.transfer, p - 1, s');
  }

  /** At a post-fixpoint, the walk from every reached position with the
      state the cache dispatches there produces only covered flows. */
  lemma {:induction false} ReplayIsCovered(c: Ctx, mp: Table, f: Option<AbstractState>, k: nat)
    requires PostFixpoint(c, mp, f)
    requires k < |c.code| && Reached(c, mp, k)
    ensures AllCovered(Walk(c.code, c.transfer, k, Pre(c, mp, k)), mp, f)
    decreases |c.code| - k
  {
    if c.code[k].Exit? {
      assert ExitSettled(c, mp, f, k);
    } else if IsJmp(c.code[k]) {
      assert Settled(c, mp, f, k);
    } else {
      ReplayIsCovered(c, mp, f, k + 1);
      FlowBackCovered(c, mp, f, k + 1, Pre(c, mp, k + 1));
    }
  }

  // ---------------------------------------------------------------------
  // The seed of the cache as `initializeCache` writes it.

  /** The state `initializeCache` dispatches at the last position: the
      initial state, whether or not that position is a jump with a stored
      fixpoint. */
  function LastSeedAsWritten(c: Ctx, mp: Table): AbstractState
  {
    c.init
  }

  /** For every post-fixpoint of the loop closed by the last instruction,
      the state stored at that jump binds `x`, which the initial state does
      not: the state the as-written cache starts from is not above the
      fixpoint there, while the corrected one is the fixpoint itself. */
  lemma LastSeedAsWrittenMissesTheLoop(mp: Table, f: Option<AbstractState>)
    requires PostFixpoint(LoopAtEnd, mp, f)
    ensures 6 in mp && Pre(LoopAtEnd, mp, 6) == mp[6]
    ensures !StateLeq(mp[6], LastSeedAsWritten(LoopAtEnd, mp))
  {
    var c := LoopAtEnd;
    LoopAtEndExitWalk();
    assert ExitSettled(c, mp, f, 4);
    assert Covered(Walk(c.code, c.transfer, 4, c.init)[0], mp, f);
    LoopAtEndJumpWalk(mp[3]);
    assert Settled(c, mp, f, 3);
    assert Covered(Walk(c.code, c.transfer, 3, mp[3])[0], mp, f);
  }

  /** A strictly increasing sequence of naturals spreads at least as far as
      it is long. */
  lemma IncreasingSpread(os: seq<nat>)
    requires |os| > 0 && forall i, k :: 0 <= i < k < |os| ==> os[i] < os[k]
    ensures os[|os| - 1] >= os[0] + |os| - 1
  {
    if |os| > 1 {
      IncreasingSpread(os[..|os| - 1]);
    }
  }

  /** The one jump to the head of `LoopAtEnd`'s loop is the last instruction. */
  lemma LoopAtEndOrigins()
    ensures JumpOrigins(LoopAtEnd.code, 1) == [6]
  {
    var code := LoopAtEnd.code;
    var os := JumpOrigins(code, 1);
    OriginsBelowAreTheJumps(code, 1, |code|);
    assert 6 in os;
    forall i | 0 <= i < |os| ensures os[i] == 6 {
      assert os[i] < 7 && IsJmp(code[os[i]]) && code[os[i]].target == 1;
    }
    IncreasingSpread(os);
    assert os == [6];
  }

  /** The one jump to the head of `LoopAtEntry`'s loop is its conditional
      jump. */
  lemma LoopAtEntryOrigins()
    ensures JumpOrigins(LoopAtEntry.code, 0) == [2]
  {
    var code := LoopAtEntry.code;
    var os := JumpOrigins(code, 0);
    OriginsBelowAreTheJumps(code, 0, |code|);
    assert 2 in os;
    forall i | 0 <= i < |os| ensures os[i] == 2 {
      assert os[i] < 4 && IsJmp(code[os[i]]) && code[os[i]].target == 0;
    }
    IncreasingSpread(os);
    assert os == [2];
  }

  /** The walk of `LoopAtEnd` from its exit. */
  lemma LoopAtEndExitWalk()
    ensures Walk(LoopAtEnd.code, LoopAtEnd.transfer, 4, LoopAtEnd.init) == [Into(3, LoopAtEnd.init)]
  {
  }

  /** The walk of `LoopAtEnd` from its conditional jump goes round the loop
      to the unconditional jump and on to the entry point. */
  lemma LoopAtEndJumpWalk(s: AbstractState)
    ensures Walk(LoopAtEnd.code, LoopAtEnd.transfer, 3, s) == [Into(6, BindX(s)), ToFinal(BindX(BindX(s)))]
  {
    var c := LoopAtEnd;
    LoopAtEndOrigins();
    assert Walk(c.code, c.transfer, 0, BindX(s)) == [ToFinal(BindX(BindX(s)))];
    assert Walk(c.code, c.transfer, 1, BindX(s)) == [Into(6, BindX(s)), ToFinal(BindX(BindX(s)))];
  }

  // ---------------------------------------------------------------------
  // The order of the entry-point and label rules as written.

  /** The walk as the driver orders its rules: the entry-point rule ends
      the branch before the label rule follows the label's jump origins. */
  function WalkAsWritten(code: seq<Instr>, T: Transfer, p: nat, s: AbstractState): seq<Edge>
    requires p < |code|
    decreases p, 1
  {
    var s' := T(code[p], s);
    if p == 0 then [ToFinal(s')]
    else
      (if code[p].Label? then IntoEach(JumpOrigins(code, p), s') else [])
      + (if FlowsBack(code, p) then ContAsWritten(code, T, p - 1, s') else [])
  }

  function ContAsWritten(code: seq<Instr>, T: Transfer, p: nat, s: AbstractState): seq<Edge>
    requires p < |code|
    decreases p, 2
  {
    if IsJmp(code[p]) then [Into(p, s)] else WalkAsWritten(code, T, p, s)
  }

  /** A post-fixpoint of the walk with the rules in the written order. */
  ghost predicate PostFixpointAsWritten(c: Ctx, mp: Table, final: Option<AbstractState>)
  {
    && (forall e :: 0 <= e < |c.code| && c.code[e].Exit? ==>
          AllCovered(WalkAsWritten(c.code, c.transfer, e, c.init), mp, final))
    && forall j :: j in mp ==>
         j < |c.code| && IsJmp(c.code[j]) && AllCovered(WalkAsWritten(c.code, c.transfer, j, mp[j]), mp, final)
  }

  /** On the loop whose head is the entry point, the rules in the written
      order settle with a state at the loop's jump that does not bind `x`,
      although `x` is bound on every path from the jump back through the
      loop: the flow from the head back to the jump is never followed.
      That table is not a post-fixpoint of the walk with the label rule
      first. */
  lemma EntryLabelOriginsDropped()
    ensures PostFixpointAsWritten(LoopAtEntry, map[2 := EmptyState], Some(BindX(EmptyState)))
    ensures "x" !in EmptyState.env.bindings
    ensures !PostFixpoint(LoopAtEntry, map[2 := EmptyState], Some(BindX(EmptyState)))
  {
    SettlesAsWritten();
    NotSettledWithLabelFirst();
  }

  /** The table with the initial state at the jump, and the state binding
      `x` as the final state, covers every walk in the written order. */
  lemma SettlesAsWritten()
    ensures PostFixpointAsWritten(LoopAtEntry, map[2 := EmptyState], Some(BindX(EmptyState)))
  {
    var c := LoopAtEntry;
    var bx := BindX(EmptyState);
    StateLeqReflexive(EmptyState);
    StateLeqReflexive(bx);
    assert WalkAsWritten(c.code, c.transfer, 3, c.init) == [Into(2, EmptyState)];
    assert WalkAsWritten(c.code, c.transfer, 0, bx) == [ToFinal(bx)];
    assert WalkAsWritten(c.code, c.transfer, 1, EmptyState) == [ToFinal(bx)];
    assert WalkAsWritten(c.code, c.transfer, 2, EmptyState) == [ToFinal(bx)];
  }

  /** With the label rule first, the walk from the jump flows a state
      binding `x` back into the jump, which that table does not cover. */
  lemma NotSettledWithLabelFirst()
    ensures !Settled(LoopAtEntry, map[2 := EmptyState], Some(BindX(EmptyState)), 2)
  {
    var c := LoopAtEntry;
    var bx := BindX(EmptyState);
    LoopAtEntryJumpWalk(EmptyState);
    assert Walk(c.code, c.transfer, 2, EmptyState)[0] == Into(2, bx);
    assert "x" in bx.env.bindings && "x" !in EmptyState.env.bindings;
    assert !StateLeq(bx, EmptyState);
  }

  /** With the label rule first, every post-fixpoint of that loop carries
      the binding of `x` back to the jump. */
  lemma EntryLabelOriginsFollowed(mp: Table, f: Option<AbstractState>)
    requires PostFixpoint(LoopAtEntry, mp, f)
    ensures 2 in mp && "x" in mp[2].env.bindings
  {
    var c := LoopAtEntry;
    LoopAtEntryExitWalk();
    assert ExitSettled(c, mp, f, 3);
    assert Covered(Walk(c.code, c.transfer, 3, c.init)[0], mp, f);
    LoopAtEntryJumpWalk(mp[2]);
    assert Settled(c, mp, f, 2);
    assert Covered(Walk(c.code, c.transfer, 2, mp[2])[0], mp, f);
  }

  /** The walk of `LoopAtEntry` from its exit. */
  lemma LoopAtEntryExitWalk()
    ensures Walk(LoopAtEntry.code, LoopAtEntry.transfer, 3, LoopAtEntry.init) == [Into(2, LoopAtEntry.init)]
  {
  }

  /** The walk of `LoopAtEntry` from its jump goes round the loop, back to
      the jump and to the entry point. */
  lemma LoopAtEntryJumpWalk(s: AbstractState)
    ensures Walk(LoopAtEntry.code, LoopAtEntry.transfer, 2, s) == [Into(2, BindX(s)), ToFinal(BindX(s))]
  {
    var c := LoopAtEntry;
    LoopAtEntryOrigins();
    assert Walk(c.code, c.transfer, 0, BindX(s)) == [Into(2, BindX(s)), ToFinal(BindX(s))];
  }
}
