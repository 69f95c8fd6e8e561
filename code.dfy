/** The code sequence the analyses walk, seen only through the navigation
    questions the drivers ask of it.  Positions are indices; the first
    position is the function's entry point. */
module Code {

  /** The instruction kinds the drivers distinguish.  `Plain` carries the
      opcode number of any other instruction. */
  datatype Instr =
    | Label
    | UncondJmp(target: nat)
    | CondJmp(target: nat)
    | Exit
    | Plain(opcode: nat)

  predicate IsJmp(i: Instr)
  {
    i.UncondJmp? || i.CondJmp?
  }

  predicate IsEntryPoint(p: nat)
  {
    p == 0
  }

  /** The forward successors of the instruction at `p`. */
  function Next(code: seq<Instr>, p: nat): (s: set<nat>)
    requires p < |code|
    ensures code[p].Exit? <==> s == {}
  {
    match code[p]
    case UncondJmp(t) => {t}
    case CondJmp(t) => {t, p + 1}
    case Exit => {}
    case _ => {p + 1}
  }

  /** Every jump targets a label of the code. */
  predicate JumpsToLabels(code: seq<Instr>)
  {
    forall p :: 0 <= p < |code| && IsJmp(code[p]) ==>
      code[p].target < |code| && code[code[p].target].Label?
  }

  /** The code is not empty and its last instruction does not fall through. */
  predicate NoFallOffEnd(code: seq<Instr>)
  {
    |code| > 0 && (code[|code| - 1].UncondJmp? || code[|code| - 1].Exit?)
  }

  /** An instruction that follows an exit point is a label. */
  predicate ExitsFollowedByLabels(code: seq<Instr>)
  {
    forall p :: 0 < p < |code| && code[p - 1].Exit? ==> code[p].Label?
  }
}
