/** The builtins an analysis may treat as harmless calls. */
module Builtins {

  /** `isSafeBuiltin`: the `is.*` builtins in two index ranges, and six
      further builtins picked one by one. */
  predicate IsSafeBuiltin(i: int)
  {
    if (i >= 362 && i < 376) || (i >= 379 && i <= 389) then true
    else
      match i
      case 62 => true   // identical
      case 88 => true   // c
      case 91 => true   // class
      case 107 => true  // vector
      case 397 => true  // rep.int
      case 555 => true  // inherits
      case _ => false
  }

  /** The safe builtins written out one by one. */
  const SafeBuiltins: set<int> := {
    62, 88, 91, 107,
    362, 363, 364, 365, 366, 367, 368, 369, 370, 371, 372, 373, 374, 375,
    379, 380, 381, 382, 383, 384, 385, 386, 387, 388, 389,
    397, 555
  }

  lemma SafeBuiltinsEnumerated(i: int)
    ensures IsSafeBuiltin(i) <==> i in SafeBuiltins
  {
  }
}
