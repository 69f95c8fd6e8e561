/** The abstract environment of State.h: a map from variable names to domain
    values, plus an optional parent environment that the environment owns
    (copying an environment deep-copies its parent chain, so a parent is
    modelled as a value). */
module Environments {
  import opened Wrappers
  import opened Lattice

  /** Environment keys: variable names. */
  type Symbol = string

  datatype Env = Env(bindings: map<Symbol, AValue>, parent: Option<Env>)

  /** `find`: the binding in the nearest scope that has one, Top if none does. */
  function Find(e: Env, k: Symbol): AValue
    decreases e
  {
    if k in e.bindings then e.bindings[k]
    else if e.parent.Some? then Find(e.parent.value, k)
    else Top
  }

  /** The scopes searched by `find`, innermost first: the reference
      definition against which `Find` is proved. */
  function Scopes(e: Env): (r: seq<map<Symbol, AValue>>)
    ensures |r| > 0 && r[0] == e.bindings
    decreases e
  {
    [e.bindings] + if e.parent.Some? then Scopes(e.parent.value) else []
  }

  /** `find` returns the binding of the innermost scope that binds the key. */
  lemma {:induction false} FindIsInnermost(e: Env, k: Symbol, i: nat)
    requires i < |Scopes(e)| && k in Scopes(e)[i]
    requires forall j :: 0 <= j < i ==> k !in Scopes(e)[j]
    ensures Find(e, k) == Scopes(e)[i][k]
    decreases e
  {
    if i > 0 {
      assert k !in e.bindings by { assert Scopes(e)[0] == e.bindings; }
      var p := e.parent.value;
      assert Scopes(e)[1..] == Scopes(p);
      forall j | 0 <= j < i - 1 ensures k !in Scopes(p)[j] {
        assert Scopes(p)[j] == Scopes(e)[j + 1];
      }
      FindIsInnermost(p, k, i - 1);
    }
  }

  /** `find` returns Top when no scope binds the key. */
  lemma {:induction false} FindUnboundIsTop(e: Env, k: Symbol)
    requires forall j :: 0 <= j < |Scopes(e)| ==> k !in Scopes(e)[j]
    ensures Find(e, k) == Top
    decreases e
  {
    assert k !in e.bindings by { assert Scopes(e)[0] == e.bindings; }
    if e.parent.Some? {
      var p := e.parent.value;
      forall j | 0 <= j < |Scopes(p)| ensures k !in Scopes(p)[j] {
        assert Scopes(p)[j] == Scopes(e)[j + 1];
      }
      FindUnboundIsTop(p, k);
    }
  }

  /** The const `operator[]`: the local binding, or Top on a local miss; the
      parent is not consulted. */
  function Get(e: Env, k: Symbol): (v: AValue)
    ensures k !in e.bindings ==> v == Top
    ensures k in e.bindings ==> v == Find(e, k)
  {
    if k in e.bindings then e.bindings[k] else Top
  }

  /** The local bindings after merging `o` into `e`: keys of both are merged
      elementwise, and a key bound on one side only is merged with Absent. */
  function MergeLocal(e: map<Symbol, AValue>, o: map<Symbol, AValue>): map<Symbol, AValue>
  {
    map k | k in e.Keys + o.Keys ::
      if k in e && k in o then Join(e[k], o[k])
      else if k in e then Join(e[k], Absent)
      else Join(o[k], Absent)
  }

  /** The change flag the two loops over the bindings accumulate. */
  predicate LocalChanged(e: map<Symbol, AValue>, o: map<Symbol, AValue>)
  {
    || (exists k :: k in o && k !in e)
    || (exists k :: k in o && k in e && Changes(e[k], o[k]))
    || (exists k :: k in e && k !in o && Changes(e[k], Absent))
  }

  lemma LocalChangedIffDifferent(e: map<Symbol, AValue>, o: map<Symbol, AValue>)
    ensures LocalChanged(e, o) <==> MergeLocal(e, o) != e
  {
    var m := MergeLocal(e, o);
    if LocalChanged(e, o) {
      if k :| k in o && k !in e {
        assert k in m;
      } else if k :| k in o && k in e && Changes(e[k], o[k]) {
        assert m[k] != e[k];
      } else {
        var k :| k in e && k !in o && Changes(e[k], Absent);
        assert m[k] != e[k];
      }
    } else {
      assert m.Keys == e.Keys;
      forall k | k in e ensures m[k] == e[k] {
      }
    }
  }

  /** The environment `e` becomes when `o` is merged into it, and the change
      flag.  A missing parent adopts a copy of the other's parent and reports a
      change; two parents are merged recursively; a parent the other side
      lacks is left alone. */
  function EnvMerge(e: Env, o: Env): (r: (Env, bool))
    ensures r.0.bindings.Keys == e.bindings.Keys + o.bindings.Keys
    ensures r.1 <==> r.0 != e
    decreases e
  {
    var local := MergeLocal(e.bindings, o.bindings);
    LocalChangedIffDifferent(e.bindings, o.bindings);
    var localChanged := LocalChanged(e.bindings, o.bindings);
    if e.parent.None? && o.parent.Some? then
      (Env(local, o.parent), true)
    else if e.parent.Some? && o.parent.Some? then
      var (p, parentChanged) := EnvMerge(e.parent.value, o.parent.value);
      (Env(local, Some(p)), localChanged || parentChanged)
    else
      (Env(local, e.parent), localChanged)
  }

  /** The order on environments: every local binding of `e` is bound in `f`
      to a value above it; a binding of `f` that `e` lacks is above Absent; and
      the parents are ordered likewise, a missing parent being below any. */
  predicate EnvLeq(e: Env, f: Env)
    decreases e
  {
    && (forall k :: k in e.bindings ==> k in f.bindings && Leq(e.bindings[k], f.bindings[k]))
    && (forall k :: k in f.bindings && k !in e.bindings ==> Leq(Absent, f.bindings[k]))
    && (e.parent.Some? ==> f.parent.Some? && EnvLeq(e.parent.value, f.parent.value))
  }

  lemma {:induction false} EnvLeqReflexive(e: Env)
    ensures EnvLeq(e, e)
    decreases e
  {
    forall k | k in e.bindings ensures Leq(e.bindings[k], e.bindings[k]) {
      LeqReflexive(e.bindings[k]);
    }
    if e.parent.Some? {
      EnvLeqReflexive(e.parent.value);
    }
  }

  lemma {:induction false} EnvLeqTransitive(e: Env, f: Env, g: Env)
    requires EnvLeq(e, f) && EnvLeq(f, g)
    ensures EnvLeq(e, g)
    decreases e
  {
    forall k | k in e.bindings ensures Leq(e.bindings[k], g.bindings[k]) {
      LeqTransitive(e.bindings[k], f.bindings[k], g.bindings[k]);
    }
    forall k | k in g.bindings && k !in e.bindings ensures Leq(Absent, g.bindings[k]) {
      if k in f.bindings {
        LeqTransitive(Absent, f.bindings[k], g.bindings[k]);
      }
    }
    if e.parent.Some? {
      EnvLeqTransitive(e.parent.value, f.parent.value, g.parent.value);
    }
  }

  /** The merged environment is above both operands. */
  lemma {:induction false} EnvMergeIsUpperBound(e: Env, o: Env)
    ensures EnvLeq(e, EnvMerge(e, o).0) && EnvLeq(o, EnvMerge(e, o).0)
    decreases e
  {
    var m := EnvMerge(e, o).0;
    assert m.bindings == MergeLocal(e.bindings, o.bindings);
    forall k | k in m.bindings
      ensures k in e.bindings ==> Leq(e.bindings[k], m.bindings[k])
      ensures k in o.bindings ==> Leq(o.bindings[k], m.bindings[k])
      ensures Leq(Absent, m.bindings[k]) || (k in e.bindings && k in o.bindings)
    {
      if k in e.bindings && k in o.bindings {
        JoinIsLeastUpperBound(e.bindings[k], o.bindings[k], m.bindings[k]);
      } else if k in e.bindings {
        JoinIsLeastUpperBound(e.bindings[k], Absent, m.bindings[k]);
      } else {
        JoinIsLeastUpperBound(o.bindings[k], Absent, m.bindings[k]);
      }
    }
    if e.parent.Some? && o.parent.Some? {
      EnvMergeIsUpperBound(e.parent.value, o.parent.value);
    } else if e.parent.Some? {
      EnvLeqReflexive(e.parent.value);
    } else if o.parent.Some? {
      EnvLeqReflexive(o.parent.value);
    }
  }

  /** Merging reports no change exactly when the incoming environment is
      already below the one merged into. */
  lemma {:induction false} EnvNoChangeIffBelow(e: Env, o: Env)
    ensures !EnvMerge(e, o).1 <==> EnvLeq(o, e)
    decreases e
  {
    var m := EnvMerge(e, o).0;
    assert m.bindings == MergeLocal(e.bindings, o.bindings);
    if e.parent.Some? && o.parent.Some? {
      EnvNoChangeIffBelow(e.parent.value, o.parent.value);
    }
    if EnvLeq(o, e) {
      forall k | k in m.bindings ensures m.bindings[k] == e.bindings[k] {
        NoChangeIffBelow(e.bindings[k], if k in o.bindings then o.bindings[k] else Absent);
      }
      assert m.bindings == e.bindings;
    } else if m == e {
      forall k | k in o.bindings ensures k in e.bindings && Leq(o.bindings[k], e.bindings[k]) {
        assert k in m.bindings;
        NoChangeIffBelow(e.bindings[k], o.bindings[k]);
      }
      forall k | k in e.bindings && k !in o.bindings ensures Leq(Absent, e.bindings[k]) {
        assert m.bindings[k] == e.bindings[k];
        NoChangeIffBelow(e.bindings[k], Absent);
      }
      assert false;
    }
  }

  /** With a commutative domain merge, merging `o` into `e` and `e` into `o`
      give the same environment. */
  lemma {:induction false} EnvMergeCommutes(e: Env, o: Env)
    ensures EnvMerge(e, o).0 == EnvMerge(o, e).0
    decreases e
  {
    var m, n := EnvMerge(e, o).0, EnvMerge(o, e).0;
    assert m.bindings == n.bindings by {
      forall k | k in m.bindings ensures m.bindings[k] == n.bindings[k] {
        if k in e.bindings && k in o.bindings {
          JoinCommutes(e.bindings[k], o.bindings[k]);
        }
      }
    }
    if e.parent.Some? && o.parent.Some? {
      EnvMergeCommutes(e.parent.value, o.parent.value);
    }
  }

  /** A key bound on one side only is neither dropped nor taken as Bottom: it
      is bound to its value merged with Absent. */
  lemma OneSidedKeyMergedWithAbsent(e: Env, o: Env, k: Symbol)
    requires (k in e.bindings) != (k in o.bindings)
    ensures k in EnvMerge(e, o).0.bindings
    ensures EnvMerge(e, o).0.bindings[k] ==
      Join(if k in e.bindings then e.bindings[k] else o.bindings[k], Absent)
    ensures k !in e.bindings ==> EnvMerge(e, o).1
  {
  }

  /** The environment object: `bindings` is `env_`, `parent` is `parent_`. */
  class AbstractEnvironment {
    var bindings: map<Symbol, AValue>
    var parent: Option<Env>

    /** The environment's value, parent chain included. */
    function Value(): Env
      reads this
    {
      Env(bindings, parent)
    }

    /** An environment with no bindings and no parent. */
    constructor ()
      ensures bindings == map[] && parent == None
    {
      bindings := map[];
      parent := None;
    }

    /** The copy constructor (and `clone`): the bindings and a deep copy of the
        parent chain. */
    constructor Copy(from: AbstractEnvironment)
      ensures Value() == from.Value()
    {
      bindings := from.bindings;
      parent := from.parent;
    }

    predicate Empty()
      reads this
    {
      bindings == map[]
    }

    predicate Has(k: Symbol)
      reads this
    {
      k in bindings
    }

    predicate HasParent()
      reads this
    {
      parent.Some?
    }

    function Parent(): Env
      reads this
      requires HasParent()
    {
      parent.value
    }

    /** Lookup through the parent chain. */
    function FindKey(k: Symbol): AValue
      reads this
    {
      Find(Value(), k)
    }

    /** The const `operator[]`. */
    function GetKey(k: Symbol): AValue
      reads this
    {
      Get(Value(), k)
    }

    /** The mutable `operator[]`: a missing key is first bound to Top; no other
        binding and not the parent changes.  Returns the bound value. */
    method At(k: Symbol) returns (v: AValue)
      modifies this
      ensures bindings == if k in old(bindings) then old(bindings) else old(bindings)[k := Top]
      ensures parent == old(parent)
      ensures v == bindings[k]
    {
      if k !in bindings {
        bindings := bindings[k := Top];
      }
      v := bindings[k];
    }

    /** Assignment through the mutable `operator[]`. */
    method Assign(k: Symbol, v: AValue)
      modifies this
      ensures bindings == old(bindings)[k := v] && parent == old(parent)
    {
      var _ := At(k);
      bindings := bindings[k := v];
    }

    /** Merges `v` into every local binding; the key set and the parent stay. */
    method MergeAll(v: AValue)
      modifies this
      ensures bindings == map k | k in old(bindings) :: Join(old(bindings)[k], v)
      ensures parent == old(parent)
    {
      ghost var b := bindings;
      var todo := bindings.Keys;
      while todo != {}
        invariant todo <= b.Keys && bindings.Keys == b.Keys
        invariant forall k :: k in b && k !in todo ==> bindings[k] == Join(b[k], v)
        invariant forall k :: k in todo ==> bindings[k] == b[k]
        invariant parent == old(parent)
        decreases todo
      {
        var k :| k in todo;
        bindings := bindings[k := Join(bindings[k], v)];
        todo := todo - {k};
      }
    }

    /** Merges `other` into this environment: first every binding of `other`
        (inserted merged with Absent when missing here, merged elementwise
        otherwise), then every binding missing from `other` is merged with
        Absent in place, then the parents. */
    method MergeWith(other: AbstractEnvironment) returns (changed: bool)
      modifies this
      ensures (Value(), changed) == EnvMerge(old(Value()), old(other.Value()))
    {
      var o := other.bindings;
      var op := other.parent;
      ghost var e := bindings;
      var othersChanged := MergeBindingsOf(o);
      var missingChanged := MergeMissingWithAbsent(o, e);
      changed := othersChanged || missingChanged;
      LoopsComputeLocalMerge(e, o, bindings, changed);
      if parent.None? {
        if op.Some? {
          parent := op;
          changed := true;
        }
      } else if op.Some? {
        var (p, parentChanged) := EnvMerge(parent.value, op.value);
        parent := Some(p);
        changed := parentChanged || changed;
      }
    }

    /** The first loop of `mergeWith`: every binding of `o` is inserted
        merged with Absent where this environment lacks it, and merged
        elementwise otherwise. */
    method MergeBindingsOf(o: map<Symbol, AValue>) returns (changed: bool)
      modifies this`bindings
      ensures bindings.Keys == old(bindings).Keys + o.Keys
      ensures forall k :: k in bindings ==> bindings[k] == AfterOthers(old(bindings), o, {}, k)
      ensures changed <==> OthersChanged(old(bindings), o, {})
    {
      ghost var e := bindings;
      changed := false;
      var todo := o.Keys;
      while todo != {}
        invariant todo <= o.Keys
        invariant bindings.Keys == e.Keys + (o.Keys - todo)
        invariant forall k :: k in bindings ==> bindings[k] == AfterOthers(e, o, todo, k)
        invariant changed <==> OthersChanged(e, o, todo)
        decreases todo
      {
        var k :| k in todo;
        if k !in bindings {
          bindings := bindings[k := Join(o[k], Absent)];
          changed := true;
        } else {
          var merged := Join(bindings[k], o[k]);
          changed := merged != bindings[k] || changed;
          bindings := bindings[k := merged];
        }
        todo := todo - {k};
      }
    }

    /** The second loop of `mergeWith`: every binding that `o` lacks is
        merged with Absent in place. */
    method MergeMissingWithAbsent(o: map<Symbol, AValue>, ghost e: map<Symbol, AValue>) returns (changed: bool)
      requires bindings.Keys == e.Keys + o.Keys
      requires forall k :: k in bindings ==> bindings[k] == AfterOthers(e, o, {}, k)
      modifies this`bindings
      ensures bindings.Keys == e.Keys + o.Keys
      ensures forall k :: k in bindings ==> bindings[k] == AfterMissing(e, o, {}, k)
      ensures changed <==> MissingChanged(e, o, {})
    {
      changed := false;
      var todo := bindings.Keys;
      while todo != {}
        invariant todo <= e.Keys + o.Keys == bindings.Keys
        invariant forall k :: k in bindings ==> bindings[k] == AfterMissing(e, o, todo, k)
        invariant changed <==> MissingChanged(e, o, todo)
        decreases todo
      {
        var k :| k in todo;
        MissingStep(e, o, todo, bindings, k, changed);
        if k !in o {
          var merged := Join(bindings[k], Absent);
          changed := merged != bindings[k] || changed;
          bindings := bindings[k := merged];
        }
        todo := todo - {k};
      }
    }
  }

  /** The value of key `k` once the first loop of `mergeWith` has handled the
      keys of `o` outside `todo`. */
  ghost function AfterOthers(e: map<Symbol, AValue>, o: map<Symbol, AValue>, todo: set<Symbol>, k: Symbol): AValue
    requires k in e || (k in o && k !in todo)
  {
    if k in todo || k !in o then e[k]
    else if k in e then Join(e[k], o[k])
    else Join(o[k], Absent)
  }

  /** The value of key `k` once the second loop has handled the keys outside
      `todo`. */
  ghost function AfterMissing(e: map<Symbol, AValue>, o: map<Symbol, AValue>, todo: set<Symbol>, k: Symbol): AValue
    requires k in e || k in o
  {
    if k in o then AfterOthers(e, o, {}, k)
    else if k in todo then e[k]
    else Join(e[k], Absent)
  }

  ghost predicate OthersChanged(e: map<Symbol, AValue>, o: map<Symbol, AValue>, todo: set<Symbol>)
  {
    exists k :: k in o && k !in todo && (k !in e || Changes(e[k], o[k]))
  }

  ghost predicate MissingChanged(e: map<Symbol, AValue>, o: map<Symbol, AValue>, todo: set<Symbol>)
  {
    exists k :: k in e && k !in o && k !in todo && Changes(e[k], Absent)
  }

  /** One iteration of the second loop of `mergeWith` keeps its invariant. */
  lemma MissingStep(e: map<Symbol, AValue>, o: map<Symbol, AValue>, todo: set<Symbol>, b: map<Symbol, AValue>, k: Symbol, changed: bool)
    requires k in todo && todo <= e.Keys + o.Keys == b.Keys
    requires forall j :: j in b ==> b[j] == AfterMissing(e, o, todo, j)
    requires changed <==> MissingChanged(e, o, todo)
    ensures var b' := if k !in o then b[k := Join(b[k], Absent)] else b;
            var changed' := if k !in o then Join(b[k], Absent) != b[k] || changed else changed;
            && (forall j :: j in b' ==> b'[j] == AfterMissing(e, o, todo - {k}, j))
            && (changed' <==> MissingChanged(e, o, todo - {k}))
  {
    if k !in o {
      assert b[k] == e[k];
    }
  }

  /** After both loops, the bindings and the flag are those of `MergeLocal`
      and `LocalChanged`. */
  lemma LoopsComputeLocalMerge(e: map<Symbol, AValue>, o: map<Symbol, AValue>, b: map<Symbol, AValue>, changed: bool)
    requires b.Keys == e.Keys + o.Keys
    requires forall k :: k in b ==> b[k] == AfterMissing(e, o, {}, k)
    requires changed <==> OthersChanged(e, o, {}) || MissingChanged(e, o, {})
    ensures b == MergeLocal(e, o)
    ensures changed == LocalChanged(e, o)
  {
    var m := MergeLocal(e, o);
    forall k | k in b ensures b[k] == m[k] {
    }
    if OthersChanged(e, o, {}) {
      var k :| k in o && (k !in e || Changes(e[k], o[k]));
      assert LocalChanged(e, o);
    }
  }
}
