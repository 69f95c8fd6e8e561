/** The abstract domain value the state model is built from.

    The framework only asks of a domain value that it can be merged with
    another one (reporting whether it changed), and that it has a top value
    and an `Absent` value.  This module fixes one such domain: a flat lattice
    of integer constants with a separate `Absent` element, so that the state
    model and the drivers can be stated and proved about a concrete domain. */
module Lattice {

  /** Bottom is below everything, Top above everything; the constants and
      Absent are pairwise incomparable. */
  datatype AValue = Bottom | Absent | Constant(n: int) | Top

  /** The least upper bound: the value `a.mergeWith(b)` leaves in `a`. */
  function Join(a: AValue, b: AValue): AValue
  {
    if a == Bottom then b
    else if b == Bottom then a
    else if a == b then a
    else Top
  }

  /** `mergeWith` reports a change exactly when the join differs from the
      value merged into. */
  predicate Changes(a: AValue, b: AValue)
  {
    Join(a, b) != a
  }

  /** The order of the lattice: merging `a` into `b` changes nothing. */
  predicate Leq(a: AValue, b: AValue)
  {
    Join(b, a) == b
  }

  /** Height of a value in the lattice. */
  function Height(a: AValue): nat
  {
    match a
    case Bottom => 0
    case Top => 2
    case _ => 1
  }

  lemma JoinCommutes(a: AValue, b: AValue)
    ensures Join(a, b) == Join(b, a)
  {
  }

  lemma JoinIdempotent(a: AValue)
    ensures Join(a, a) == a
    ensures !Changes(a, a)
  {
  }

  lemma JoinAssociates(a: AValue, b: AValue, c: AValue)
    ensures Join(Join(a, b), c) == Join(a, Join(b, c))
  {
  }

  /** The merged value is an upper bound of both operands, and the least one. */
  lemma JoinIsLeastUpperBound(a: AValue, b: AValue, c: AValue)
    ensures Leq(a, Join(a, b)) && Leq(b, Join(a, b))
    ensures Leq(a, c) && Leq(b, c) ==> Leq(Join(a, b), c)
  {
  }

  lemma LeqReflexive(a: AValue)
    ensures Leq(a, a)
  {
  }

  lemma LeqTransitive(a: AValue, b: AValue, c: AValue)
    requires Leq(a, b) && Leq(b, c)
    ensures Leq(a, c)
  {
  }

  lemma LeqAntisymmetric(a: AValue, b: AValue)
    requires Leq(a, b) && Leq(b, a)
    ensures a == b
  {
  }

  /** A merge reports no change exactly when the incoming value is already
      below the value merged into. */
  lemma NoChangeIffBelow(a: AValue, b: AValue)
    ensures !Changes(a, b) <==> Leq(b, a)
  {
  }

  /** Every reported change strictly raises the value in a lattice of height 2:
      this is what makes the worklist's "stop when nothing changed" rule
      terminate on this domain. */
  lemma ChangeRaisesHeight(a: AValue, b: AValue)
    ensures Height(Join(a, b)) >= Height(a)
    ensures Changes(a, b) ==> Height(Join(a, b)) > Height(a)
    ensures Height(Join(a, b)) <= 2
  {
  }

  /** A chain of merges that each report a change: `chain[i + 1]` is
      `chain[i]` merged with `incoming[i]`. */
  ghost predicate StrictChain(chain: seq<AValue>, incoming: seq<AValue>)
  {
    && |incoming| + 1 == |chain|
    && forall i :: 0 <= i < |incoming| ==>
         chain[i + 1] == Join(chain[i], incoming[i]) && Changes(chain[i], incoming[i])
  }

  /** Finite height: at most two merges into one value can report a change. */
  lemma {:induction false} StrictChainIsShort(chain: seq<AValue>, incoming: seq<AValue>)
    requires StrictChain(chain, incoming)
    ensures |incoming| <= 2 - Height(chain[0])
  {
    if |incoming| > 0 {
      ChangeRaisesHeight(chain[0], incoming[0]);
      assert StrictChain(chain[1..], incoming[1..]) by {
        forall i | 0 <= i < |incoming[1..]|
          ensures chain[1..][i + 1] == Join(chain[1..][i], incoming[1..][i])
          ensures Changes(chain[1..][i], incoming[1..][i])
        {
          assert chain[1..][i + 1] == chain[i + 2] && chain[1..][i] == chain[i + 1];
          assert incoming[1..][i] == incoming[i + 1];
        }
      }
      StrictChainIsShort(chain[1..], incoming[1..]);
    }
  }
}
