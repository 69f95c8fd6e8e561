/** Small programs on which the drivers' behaviour is worked out by hand. */
module Samples {
  import opened States
  import opened Lattice
  import opened Environments
  import opened Code
  import opened Analyses

  /** The transfer of the sample programs' one plain instruction: bind `x`
      to 1 in the local scope. */
  function BindX(s: AbstractState): (r: AbstractState)
    ensures "x" in r.env.bindings && r.env.bindings["x"] == Constant(1)
    ensures Depth(r) == Depth(s)
  {
    AbstractState(s.globals, s.stack, Env(s.env.bindings["x" := Constant(1)], s.env.parent))
  }

  /** Every other instruction leaves the state as it is. */
  const BindOnPlain: Transfer := (i: Instr, s: AbstractState) => if i.Plain? then BindX(s) else s

  /** A loop whose head is the entry point: a label, one instruction that
      binds `x`, and a conditional jump back to the label before the exit. */
  const LoopAtEntry: Ctx := Ctx([Label, Plain(0), CondJmp(0), Exit], BindOnPlain, EmptyState)

  /** A loop that is entered by falling into it and closed by the last
      instruction, an unconditional jump back to its head.  The conditional
      jump leaves the loop to the exit. */
  const LoopAtEnd: Ctx :=
    Ctx([Plain(0), Label, Plain(0), CondJmp(5), Exit, Label, UncondJmp(1)], BindOnPlain, EmptyState)
}
