/** `Namespace` of assembler.py: the symbol table with its predefined names and the counter
    from which variables are allocated. */
module Names {

  /** `_default_names`. */
  const DefaultNames: map<string, int> := map[
    "R0" := 0, "R1" := 1, "R2" := 2, "R3" := 3, "R4" := 4, "R5" := 5, "R6" := 6, "R7" := 7,
    "R8" := 8, "R9" := 9, "R10" := 10, "R11" := 11, "R12" := 12, "R13" := 13, "R14" := 14,
    "R15" := 15, "SP" := 0, "LCL" := 1, "ARG" := 2, "THIS" := 3, "THAT" := 4,
    "SCREEN" := 16384, "KBD" := 24576]

  /** The initial `highest_name`. */
  const FirstHighest: int := 15

  /** Whether `names.get(name)` is truthy: bound, and not to 0. */
  predicate BoundNonzero(names: map<string, int>, name: string) {
    name in names && names[name] != 0
  }

  /** What `resolve(name)` returns, and the table and counter it leaves. */
  function Resolution(names: map<string, int>, highest: int, name: string): (int, map<string, int>, int) {
    if BoundNonzero(names, name) then (names[name], names, highest)
    else (highest + 1, names[name := highest + 1], highest + 1)
  }

  class Namespace {
    var names: map<string, int>
    var highest: int

    constructor ()
      ensures names == DefaultNames && highest == FirstHighest
    {
      names := DefaultNames;
      highest := FirstHighest;
    }

    /** `resolve`: a name bound to a nonzero address keeps it; any other name, including one
        bound to 0, gets the next address after `highest`. */
    method Resolve(name: string) returns (addr: int)
      modifies this
      ensures (addr, names, highest) == Resolution(old(names), old(highest), name)
    {
      if name in names && names[name] != 0 {
        return names[name];
      }
      highest := highest + 1;
      names := names[name := highest];
      addr := highest;
    }
  }
}
