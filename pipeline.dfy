/** `resolve_if_named_a_instruction` and `assemble` of assembler.py: the placeholders are
    resolved in list order through the namespace, then every instruction is encoded and the
    words are concatenated. */
module Pipeline {
  import opened Wrappers
  import opened Instructions
  import opened Names
  import opened Grammar
  import opened Parser

  /** A failure of `assemble`: from the parse, or from encoding a resolved instruction. */
  datatype AsmError = ParseFailure(parse: ParseError) | EncodeFailure(encode: EncodeError)

  /** `resolve_if_named_a_instruction`, with the table and counter it leaves. */
  function ResolvedItem(item: Item, names: map<string, int>, highest: int): (Instruction, map<string, int>, int) {
    match item
    case Ready(ins) => (ins, names, highest)
    case Named(name) =>
      var (addr, names', highest') := Resolution(names, highest, name);
      (AInstruction(addr), names', highest')
  }

  /** The list comprehension: every item resolved, first to last. */
  function ResolvedItems(items: seq<Item>, names: map<string, int>, highest: int): (r: (seq<Instruction>, map<string, int>, int))
    ensures |r.0| == |items|
    decreases |items|
  {
    if items == [] then ([], names, highest)
    else
      var (pre, names1, highest1) := ResolvedItems(items[..|items| - 1], names, highest);
      var (ins, names2, highest2) := ResolvedItem(items[|items| - 1], names1, highest1);
      (pre + [ins], names2, highest2)
  }

  /** `b"".join(i.to_bytes() for i in instructions)`: the first encoding error, if any. */
  function Joined(instrs: seq<Instruction>): Result<seq<byte>, EncodeError>
    decreases |instrs|
  {
    if instrs == [] then Ok([])
    else
      match Joined(instrs[..|instrs| - 1])
      case Err(e) => Err(e)
      case Ok(b) =>
        match ToBytes(instrs[|instrs| - 1])
        case Err(e) => Err(e)
        case Ok(w) => Ok(b + w)
  }

  /** `assemble(asm)`. */
  function Assembled(asm: string): Result<seq<byte>, AsmError> {
    match Preassembled(asm)
    case Failed(e) => Err(ParseFailure(e))
    case Done(items, names) =>
      match Joined(ResolvedItems(items, names, FirstHighest).0)
      case Err(e) => Err(EncodeFailure(e))
      case Ok(b) => Ok(b)
  }

  /** Once a prefix fails to encode, the whole list fails with that error. */
  lemma {:induction false} JoinedPrefixFails(instrs: seq<Instruction>, k: nat)
    requires k <= |instrs| && Joined(instrs[..k]).Err?
    ensures Joined(instrs) == Joined(instrs[..k])
    decreases |instrs| - k
  {
    if k < |instrs| {
      assert instrs[..k + 1][..k] == instrs[..k];
      JoinedPrefixFails(instrs, k + 1);
    } else {
      assert instrs[..k] == instrs;
    }
  }

  method ResolveIfNamed(item: Item, ns: Namespace) returns (ins: Instruction)
    modifies ns
    ensures (ins, ns.names, ns.highest) == ResolvedItem(item, old(ns.names), old(ns.highest))
  {
    if item.Ready? {
      return item.instr;
    }
    var addr := ns.Resolve(item.name);
    ins := AInstruction(addr);
  }

  /** The comprehension `[resolve_if_named_a_instruction(i, namespace) for i in preassembled]`. */
  method ResolveAll(items: seq<Item>, ns: Namespace) returns (instrs: seq<Instruction>)
    modifies ns
    ensures (instrs, ns.names, ns.highest) == ResolvedItems(items, old(ns.names), old(ns.highest))
  {
    instrs := [];
    var k := 0;
    while k < |items|
      invariant k <= |items|
      invariant (instrs, ns.names, ns.highest) == ResolvedItems(items[..k], old(ns.names), old(ns.highest))
    {
      var ins := ResolveIfNamed(items[k], ns);
      assert items[..k + 1][..k] == items[..k];
      instrs := instrs + [ins];
      k := k + 1;
    }
    assert items[..k] == items;
  }

  /** The join of every instruction's bytes. */
  method JoinAll(instrs: seq<Instruction>) returns (r: Result<seq<byte>, EncodeError>)
    ensures r == Joined(instrs)
  {
    var out: seq<byte> := [];
    var k := 0;
    while k < |instrs|
      invariant k <= |instrs|
      invariant Joined(instrs[..k]) == Ok(out)
    {
      var w := ToBytes(instrs[k]);
      assert instrs[..k + 1][..k] == instrs[..k];
      if w.Err? {
        JoinedPrefixFails(instrs, k + 1);
        return Err(w.error);
      }
      out := out + w.value;
      k := k + 1;
    }
    assert instrs[..k] == instrs;
    r := Ok(out);
  }

  /** `assemble`: parse, resolve every placeholder, encode and concatenate. */
  method Assemble(asm: string) returns (r: Result<seq<byte>, AsmError>)
    ensures r == Assembled(asm)
  {
    var pre, ns := Preassemble(asm);
    if pre.Failed? {
      return Err(ParseFailure(pre.err));
    }
    var instructions := ResolveAll(pre.items, ns);
    var joined := JoinAll(instructions);
    if joined.Err? {
      return Err(EncodeFailure(joined.error));
    }
    r := Ok(joined.value);
  }
}
