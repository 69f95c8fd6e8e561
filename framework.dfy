/** The dispatcher prototype of framework.h: `dispatch` resets a success
    flag, runs the dispatcher's hook on an instruction position, and returns
    the flag, which the hook clears by calling `fail`. */
module Framework {

  /** What the hook (`doDispatch`) does when run on one position: the event
      it produces (its observable effect) and whether it calls `fail`. */
  datatype HookRun<E> = HookRun(event: E, callsFail: bool)

  class Dispatcher<E> {
    /** The overridden `doDispatch`: defined on the positions it can handle. */
    const hook: nat --> HookRun<E>
    /** `success_`. */
    var success: bool
    /** The events produced by the hook, in order. */
    var trace: seq<E>

    constructor (hook: nat --> HookRun<E>)
      ensures this.hook == hook && trace == []
    {
      this.hook := hook;
      trace := [];
    }

    /** Called by the hook to make the running `dispatch` return false. */
    method Fail()
      modifies this
      ensures !success && trace == old(trace)
    {
      success := false;
    }

    method DoDispatch(ins: nat)
      requires hook.requires(ins)
      modifies this
      ensures trace == old(trace) + [hook(ins).event]
      ensures success == (old(success) && !hook(ins).callsFail)
    {
      var run := hook(ins);
      trace := trace + [run.event];
      if run.callsFail {
        Fail();
      }
    }

    /** Runs the hook exactly once and returns false iff it called `fail`
        during this call, whatever an earlier call left in the flag.  The
        position is passed by value: dispatching never moves the cursor. */
    method Dispatch(ins: nat) returns (ok: bool)
      requires hook.requires(ins)
      modifies this
      ensures trace == old(trace) + [hook(ins).event]
      ensures ok == !hook(ins).callsFail
      ensures success == ok
    {
      success := true;
      DoDispatch(ins);
      ok := success;
    }
  }

  /** A hook that only counts its runs returns true, and has run once. */
  method CountingDispatcherSucceeds(ins: nat) returns (runs: nat, ok: bool)
    ensures runs == 1 && ok
  {
    var d := new Dispatcher((p: nat) => HookRun(p, false));
    ok := d.Dispatch(ins);
    runs := |d.trace|;
  }

  /** A hook that calls `fail` makes `dispatch` return false. */
  method FailingDispatcherFails(ins: nat) returns (ok: bool)
    ensures !ok
  {
    var d := new Dispatcher((p: nat) => HookRun(p, true));
    ok := d.Dispatch(ins);
  }

  /** A failure in one call does not leak into the next: a hook that fails at
      position 0 only makes the first of two dispatches fail, not the second. */
  method FailureDoesNotLeak() returns (first: bool, second: bool)
    ensures !first && second
  {
    var d := new Dispatcher((p: nat) => HookRun(p, p == 0));
    first := d.Dispatch(0);
    second := d.Dispatch(1);
  }
}
