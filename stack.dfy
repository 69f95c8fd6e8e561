/** The abstract stack of State.h: a LIFO of domain values whose top is the
    front of the underlying deque, so index 0 is the most recently pushed
    value.  Stacks are merged slot by slot, and only stacks of equal depth may
    be merged. */
module Stacks {
  import opened Lattice

  /** Slot-wise order: equal depth and every slot below its counterpart. */
  predicate StackLeq(s: seq<AValue>, t: seq<AValue>)
  {
    |s| == |t| && forall i :: 0 <= i < |s| ==> Leq(s[i], t[i])
  }

  /** The stack `s` becomes when `o` is merged into it, and the reported
      change flag: true when some slot's merge reported a change. */
  function StackMerge(s: seq<AValue>, o: seq<AValue>): (r: (seq<AValue>, bool))
    requires |s| == |o|
    ensures |r.0| == |s|
    ensures r.1 <==> r.0 != s
    ensures StackLeq(s, r.0) && StackLeq(o, r.0)
  {
    var merged := seq(|s|, i requires 0 <= i < |s| => Join(s[i], o[i]));
    var changed := exists i :: 0 <= i < |s| && Changes(s[i], o[i]);
    assert changed ==> merged != s by {
      if changed {
        var i :| 0 <= i < |s| && Changes(s[i], o[i]);
        assert merged[i] != s[i];
      }
    }
    assert forall i :: 0 <= i < |s| ==> Leq(s[i], merged[i]) && Leq(o[i], merged[i]) by {
      forall i | 0 <= i < |s| ensures Leq(s[i], merged[i]) && Leq(o[i], merged[i]) {
        JoinIsLeastUpperBound(s[i], o[i], merged[i]);
      }
    }
    (merged, changed)
  }

  lemma StackLeqReflexive(s: seq<AValue>)
    ensures StackLeq(s, s)
  {
    forall i | 0 <= i < |s| ensures Leq(s[i], s[i]) { LeqReflexive(s[i]); }
  }

  lemma StackLeqTransitive(s: seq<AValue>, t: seq<AValue>, u: seq<AValue>)
    requires StackLeq(s, t) && StackLeq(t, u)
    ensures StackLeq(s, u)
  {
    forall i | 0 <= i < |s| ensures Leq(s[i], u[i]) { LeqTransitive(s[i], t[i], u[i]); }
  }

  /** Merging reports no change exactly when the incoming stack is already
      below the stack merged into. */
  lemma StackNoChangeIffBelow(s: seq<AValue>, o: seq<AValue>)
    requires |s| == |o|
    ensures !StackMerge(s, o).1 <==> StackLeq(o, s)
  {
    if StackLeq(o, s) {
      forall i | 0 <= i < |s| ensures !Changes(s[i], o[i]) { NoChangeIffBelow(s[i], o[i]); }
    } else {
      var i :| 0 <= i < |s| && !Leq(o[i], s[i]);
      NoChangeIffBelow(s[i], o[i]);
    }
  }

  /** The stack object: `values` is the deque `stack_`, front first. */
  class AbstractStack {
    var values: seq<AValue>

    constructor ()
      ensures values == []
    {
      values := [];
    }

    /** The copy constructor (and `clone`). */
    constructor Copy(from: AbstractStack)
      ensures values == from.values
    {
      values := from.values;
    }

    function Depth(): (d: nat)
      reads this
    {
      |values|
    }

    predicate Empty()
      reads this
    {
      |values| == 0
    }

    /** The top value; the deque's front must exist. */
    function Top(): (v: AValue)
      reads this
      requires |values| > 0
    {
      values[0]
    }

    /** The idx-th value from the top. */
    function At(idx: nat): (v: AValue)
      reads this
      requires idx < |values|
    {
      values[idx]
    }

    /** Assignment through the mutable `operator[]`. */
    method Update(idx: nat, v: AValue)
      requires idx < |values|
      modifies this
      ensures values == old(values)[idx := v]
    {
      values := values[idx := v];
    }

    method Push(v: AValue)
      modifies this
      ensures values == [v] + old(values)
      ensures Top() == v && At(0) == v
    {
      values := [v] + values;
    }

    method Pop() returns (v: AValue)
      requires |values| > 0
      modifies this
      ensures v == old(values)[0]
      ensures values == old(values)[1..]
    {
      v := values[0];
      values := values[1..];
    }

    /** Removes the top `num` values, one `pop_front` at a time. */
    method PopN(num: nat)
      requires |values| >= num
      modifies this
      ensures values == old(values)[num..]
    {
      var i := 0;
      while i != num
        invariant 0 <= i <= num
        invariant values == old(values)[i..]
      {
        values := values[1..];
        i := i + 1;
      }
    }

    /** Merges `other` into this stack slot by slot, accumulating whether some
        slot changed. */
    method MergeWith(other: AbstractStack) returns (changed: bool)
      requires |values| == |other.values|
      modifies this
      ensures (values, changed) == StackMerge(old(values), old(other.values))
    {
      var o := other.values;
      ghost var s := values;
      changed := false;
      var i := 0;
      while i != |values|
        invariant |values| == |s| && 0 <= i <= |s|
        invariant forall k :: 0 <= k < i ==> values[k] == Join(s[k], o[k])
        invariant forall k :: i <= k < |s| ==> values[k] == s[k]
        invariant changed <==> exists k :: 0 <= k < i && Changes(s[k], o[k])
      {
        var merged := Join(values[i], o[i]);
        changed := merged != values[i] || changed;
        values := values[i := merged];
        i := i + 1;
      }
      assert values == StackMerge(s, o).0;
    }
  }

  /** `push(v)` followed by `pop()` returns `v` and restores the stack. */
  method PushThenPop(s: AbstractStack, v: AValue) returns (w: AValue)
    modifies s
    ensures w == v && s.values == old(s.values)
  {
    s.Push(v);
    w := s.Pop();
  }
}
