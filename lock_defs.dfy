/**
 * lock.h: the UUCP lock-file location and the min/max helper macros.
 */
module LockDefs {
  /** Directory that holds the lock files. */
  const LfPath := "/var/lock"
  /** Prefix put before the device's basename to name its lock file. */
  const LfPrefix := "LCK.."

  /** The `max` macro: the larger operand, the second one on a tie. */
  function Max(a: int, b: int): (r: int)
    ensures r >= a && r >= b
    ensures r == a || r == b
  {
    if a > b then a else b
  }

  /** The `min` macro: the smaller operand, the second one on a tie. */
  function Min(a: int, b: int): (r: int)
    ensures r <= a && r <= b
    ensures r == a || r == b
  {
    if a < b then a else b
  }

  /** Replacement texts of the two macros as lock.h writes them. */
  const MaxMacro := "(((a) > (b)) ? (a) : (b))"
  const MinMacro := "(((a) < (b)) ? (a) : (b))"

  /**
   * The `#ifndef name / #define name body / #endif` guard around each macro:
   * a definition already in force wins, otherwise `body` is added.
   * `defs` maps macro names to their replacement text.
   */
  function DefineIfUndefined(defs: map<string, string>, name: string, body: string): (r: map<string, string>)
    ensures r.Keys == defs.Keys + {name}
    ensures name in defs ==> r[name] == defs[name]
    ensures name !in defs ==> r[name] == body
    ensures forall other :: other in defs && other != name ==> r[other] == defs[other]
  {
    if name in defs then defs else defs[name := body]
  }

  /** The definitions lock.h leaves in force, given those made before it. */
  function LockHeaderMacros(defs: map<string, string>): map<string, string> {
    DefineIfUndefined(DefineIfUndefined(defs, "max", MaxMacro), "min", MinMacro)
  }

  /** Including lock.h never replaces an earlier `min` or `max`. */
  lemma HeaderKeepsEarlierMacros(defs: map<string, string>)
    ensures "max" in defs ==> LockHeaderMacros(defs)["max"] == defs["max"]
    ensures "min" in defs ==> LockHeaderMacros(defs)["min"] == defs["min"]
    ensures "max" !in defs ==> LockHeaderMacros(defs)["max"] == MaxMacro
    ensures "min" !in defs ==> LockHeaderMacros(defs)["min"] == MinMacro
  {
  }
}
