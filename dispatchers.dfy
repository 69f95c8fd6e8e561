/** The opcode visitor of dispatchers.h: a dispatcher whose hook decodes the
    instruction under the cursor and calls the receiver's handler for its
    opcode.  Every handler of a receiver defaults to the catch-all `any`, and
    so does `label`, the handler of the label pseudo-instruction. */
module Dispatchers {
  import opened Wrappers
  import opened Code
  import opened Framework

  /** The opcodes the visitor knows: the label pseudo-instruction and a few
      ordinary instructions. */
  datatype Opcode = LabelOp | Br | BrTrue | Ret | Push | Pop | LdConst | GuardFun

  /** The opcodes of `Plain` instructions, indexed by their opcode number. */
  const PlainOpcodes: seq<Opcode> := [Push, Pop, LdConst, GuardFun]

  /** The opcode of an instruction, None for an opcode number the visitor
      does not know. */
  function Decode(i: Instr): Option<Opcode>
  {
    match i
    case Label => Some(LabelOp)
    case UncondJmp(_) => Some(Br)
    case CondJmp(_) => Some(BrTrue)
    case Exit => Some(Ret)
    case Plain(n) => if n < |PlainOpcodes| then Some(PlainOpcodes[n]) else None
  }

  /** The receiver body that runs: the catch-all, or the receiver's own
      handler of an opcode (`label` for LabelOp). */
  datatype Handler = Any | Own(op: Opcode)

  /** A receiver: the opcodes whose handler it overrides (LabelOp for
      `label`), and the handlers whose body calls `fail`. */
  datatype Receiver = Receiver(overridden: set<Opcode>, failing: set<Handler>)

  /** The base `Receiver`: overrides nothing, and its `any` does nothing. */
  const DefaultReceiver: Receiver := Receiver({}, {})

  /** The handler `doDispatch` reaches for an opcode. */
  function Route(r: Receiver, op: Opcode): (h: Handler)
    ensures h == Any <==> op !in r.overridden
    ensures h != Any ==> h.op == op
  {
    if op in r.overridden then Own(op) else Any
  }

  /** What the visitor records: which handler ran, at which position. */
  datatype Visit = Visit(handler: Handler, at: nat)

  /** `doDispatch` of the visitor over `code`: defined only at a position
      whose opcode is known (an unknown opcode is a fatal assertion). Its
      contract is stated by `DefaultReceiverDispatch` (every opcode reaches
      `any`) and `OverriddenDispatch` (an overridden handler runs instead). */
  function InstructionHook(r: Receiver, code: seq<Instr>): nat --> HookRun<Visit>
  {
    (p: nat) requires p < |code| && Decode(code[p]).Some? =>
      var h := Route(r, Decode(code[p]).value);
      HookRun(Visit(h, p), h in r.failing)
  }

  /** With the base receiver every instruction, the label included, reaches
      `any`, and dispatch returns true. */
  method DefaultReceiverDispatch(code: seq<Instr>, ins: nat) returns (ok: bool, visits: seq<Visit>)
    requires ins < |code| && Decode(code[ins]).Some?
    ensures ok && visits == [Visit(Any, ins)]
  {
    var d := new Dispatcher(InstructionHook(DefaultReceiver, code));
    ok := d.Dispatch(ins);
    visits := d.trace;
  }

  /** A receiver that overrides the handler of the instruction's opcode runs
      that handler instead of `any`; dispatch succeeds unless the handler
      calls `fail`. */
  method OverriddenDispatch(code: seq<Instr>, ins: nat, failing: bool) returns (ok: bool, visits: seq<Visit>)
    requires ins < |code| && Decode(code[ins]).Some?
    ensures visits == [Visit(Own(Decode(code[ins]).value), ins)]
    ensures ok == !failing
  {
    var op := Decode(code[ins]).value;
    var r := Receiver({op}, if failing then {Own(op)} else {});
    var d := new Dispatcher(InstructionHook(r, code));
    ok := d.Dispatch(ins);
    visits := d.trace;
  }
}
