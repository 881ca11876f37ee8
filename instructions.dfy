/** The Hack instruction encoder of projects/06/instructions.py: three instruction kinds,
    each turned into one 16-bit big-endian word, and the fixed comp/dest/jump tables. */
module Instructions {
  import opened Wrappers

  newtype byte = x: int | 0 <= x < 256

  /** A computation `(comp_part_a, (operator, comp_part_b) or None)`: the first operand,
      and, when an operator was given, the operator and the second operand ("" for a
      unary operator). */
  datatype Comp = Comp(operand: string, rest: Option<(string, string)>)

  datatype Instruction =
    | RawInstruction(bytes: seq<byte>)
    | CInstruction(dest: string, comp: Comp, jump: string)
    | AInstruction(value: int)

  /** The SyntaxErrors that `to_bytes` raises. */
  datatype EncodeError = UnknownComp | UnknownDest | UnknownJump | TooBig | TooSmall
  {
    function Message(): string {
      match this
      case UnknownComp => "Unknown comp symbol or operator."
      case UnknownDest => "Unknown dest."
      case UnknownJump => "Unknown jump."
      case TooBig => "A Instruction destination too big."
      case TooSmall => "A Instruction destination too small."
    }
  }

  /** `CInstruction._dest_map`: note the keys "DM" and "ADM". */
  function DestCode(dest: string): (r: Option<nat>)
    ensures r.Some? ==> r.value < 8
  {
    if dest == "" then Some(0)
    else if dest == "M" then Some(1)
    else if dest == "D" then Some(2)
    else if dest == "DM" then Some(3)
    else if dest == "A" then Some(4)
    else if dest == "AM" then Some(5)
    else if dest == "AD" then Some(6)
    else if dest == "ADM" then Some(7)
    else None
  }

  /** `CInstruction._jmp_map`. */
  function JumpCode(jump: string): (r: Option<nat>)
    ensures r.Some? ==> r.value < 8
  {
    if jump == "" then Some(0)
    else if jump == "JGT" then Some(1)
    else if jump == "JEQ" then Some(2)
    else if jump == "JGE" then Some(3)
    else if jump == "JLT" then Some(4)
    else if jump == "JNE" then Some(5)
    else if jump == "JLE" then Some(6)
    else if jump == "JMP" then Some(7)
    else None
  }

  /** The `c` bits of a computation with no operator (bits in the comments). */
  function NullaryCode(x: string): (r: Option<nat>)
    ensures r.Some? ==> r.value < 64
  {
    if x == "0" then Some(0x2A)                     // 101010
    else if x == "1" then Some(0x3F)                // 111111
    else if x == "D" then Some(0x0C)                // 001100
    else if x == "A" || x == "M" then Some(0x30)    // 110000
    else None
  }

  /** The `c` bits of a unary computation: operator `op` applied to `x`. */
  function UnaryCode(x: string, op: string): (r: Option<nat>)
    ensures r.Some? ==> r.value < 64
  {
    if x == "1" && op == "-" then Some(0x3A)                       // 111010
    else if x == "D" && op == "!" then Some(0x0D)                  // 001101
    else if (x == "A" || x == "M") && op == "!" then Some(0x31)    // 110001
    else if x == "D" && op == "-" then Some(0x0F)                  // 001111
    else if (x == "A" || x == "M") && op == "-" then Some(0x33)    // 110011
    else None
  }

  /** The `c` bits of a binary computation `x op y`. */
  function BinaryCode(x: string, op: string, y: string): (r: Option<nat>)
    ensures r.Some? ==> r.value < 64
  {
    var am := x == "A" || x == "M";
    if x == "D" && op == "+" && y == "1" then Some(0x1F)                    // 011111
    else if am && op == "+" && y == "1" then Some(0x37)                     // 110111
    else if x == "D" && op == "-" && y == "1" then Some(0x0E)               // 001110
    else if am && op == "-" && y == "1" then Some(0x32)                     // 110010
    else if x == "D" && op == "+" && (y == "A" || y == "M") then Some(0x02) // 000010
    else if x == "D" && op == "-" && (y == "A" || y == "M") then Some(0x13) // 010011
    else if am && op == "-" && y == "D" then Some(0x07)                     // 000111
    else if x == "D" && op == "&" && (y == "A" || y == "M") then Some(0x00) // 000000
    else if x == "D" && op == "|" && (y == "A" || y == "M") then Some(0x15) // 010101
    else None
  }

  /** The three `match` statements of `CInstruction.to_bytes`: exactly one of them applies,
      chosen by whether there is no operator, a unary one (empty second operand) or a
      binary one. */
  function CompCode(comp: Comp): (r: Option<nat>)
    ensures r.Some? ==> r.value < 64
  {
    match comp.rest
    case None => NullaryCode(comp.operand)
    case Some((op, y)) => if y == "" then UnaryCode(comp.operand, op) else BinaryCode(comp.operand, op, y)
  }

  /** The `a` bit: set when either operand is "M". */
  function ABit(comp: Comp): nat {
    if comp.operand == "M" || (comp.rest.Some? && comp.rest.value.1 == "M") then 1 else 0
  }

  /** Python's `|` on non-negative integers, one bit at a time. */
  function BitOr(x: nat, y: nat): nat
    decreases x + y
  {
    if x == 0 then y
    else if y == 0 then x
    else 2 * BitOr(x / 2, y / 2) + (if x % 2 == 1 || y % 2 == 1 then 1 else 0)
  }

  function Pow2(k: nat): nat {
    if k == 0 then 1 else 2 * Pow2(k - 1)
  }

  /** Or-ing a number below 2^k into a multiple of 2^k adds it. */
  lemma {:induction false} BitOrDisjoint(h: nat, y: nat, k: nat)
    requires y < Pow2(k)
    ensures BitOr(h * Pow2(k), y) == h * Pow2(k) + y
  {
    var x := h * Pow2(k);
    if k == 0 {
      assert y == 0 && x == h;
    } else if x != 0 && y != 0 {
      assert x == 2 * (h * Pow2(k - 1));
      assert x / 2 == h * Pow2(k - 1) && x % 2 == 0;
      BitOrDisjoint(h, y / 2, k - 1);
      assert BitOr(x, y) == 2 * BitOr(x / 2, y / 2) + y % 2;
    }
  }

  /** The same, with the power of two given as a number. */
  lemma BitOrBelow(h: nat, y: nat, k: nat, m: nat)
    requires m == Pow2(k) && y < m
    ensures BitOr(h * m, y) == h * m + y
  {
    BitOrDisjoint(h, y, k);
  }

  /** The word `111 a cccccc ddd jjj`, as a sum of its fields; `PackIsBitOr` shows it is
      the value of `0b1110_0000_0000_0000 | (a << 12) | (c << 6) | (d << 3) | j`. */
  function Pack(a: nat, c: nat, d: nat, j: nat): nat
    requires a < 2 && c < 64 && d < 8 && j < 8
  {
    0xE000 + a * 0x1000 + c * 0x40 + d * 8 + j
  }

  /** Since the fields do not overlap, or-ing them together adds them. */
  lemma PackIsBitOr(a: nat, c: nat, d: nat, j: nat)
    requires a < 2 && c < 64 && d < 8 && j < 8
    ensures BitOr(BitOr(BitOr(BitOr(0xE000, a * 0x1000), c * 0x40), d * 8), j) == Pack(a, c, d, j)
  {
    var h1, h2, h3 := 0xE + a, 0x380 + a * 0x40 + c, 0x1C00 + a * 0x200 + c * 8 + d;
    BitOrBelow(7, a * 0x1000, 13, 0x2000);
    assert BitOr(0xE000, a * 0x1000) == h1 * 0x1000;
    BitOrBelow(h1, c * 0x40, 12, 0x1000);
    assert BitOr(h1 * 0x1000, c * 0x40) == h2 * 0x40;
    BitOrBelow(h2, d * 8, 6, 0x40);
    assert BitOr(h2 * 0x40, d * 8) == h3 * 8;
    BitOrBelow(h3, j, 3, 8);
  }

  /** `int.to_bytes(2)`: two bytes, most significant first. */
  function Word(w: nat): seq<byte>
    requires w < 0x1_0000
  {
    [(w / 256) as byte, (w % 256) as byte]
  }

  /** `Instruction.to_bytes` for each kind. Comp is checked before dest and dest before jump. */
  function ToBytes(ins: Instruction): Result<seq<byte>, EncodeError> {
    match ins
    case RawInstruction(b) => Ok(b)
    case AInstruction(v) =>
      if v > 32767 then Err(TooBig)
      else if v < 0 then Err(TooSmall)
      else Ok(Word(v))
    case CInstruction(dest, comp, jump) =>
      match CompCode(comp)
      case None => Err(UnknownComp)
      case Some(c) =>
        match DestCode(dest)
        case None => Err(UnknownDest)
        case Some(d) =>
          match JumpCode(jump)
          case None => Err(UnknownJump)
          case Some(j) => Ok(Word(Pack(ABit(comp), c, d, j)))
  }

  /** `Instruction.to_raw`: the instruction's bytes, frozen into a RawInstruction. */
  function ToRaw(ins: Instruction): Result<Instruction, EncodeError> {
    match ToBytes(ins)
    case Ok(b) => Ok(RawInstruction(b))
    case Err(e) => Err(e)
  }
}
