/** Properties of the encoder in projects/06/instructions.py: word layout, range checks,
    injectivity of the packing, and the comp/dest/jump tables checked against independent
    definitions of what the Hack CPU does with those bits. */
module EncoderProperties {
  import opened Wrappers
  import opened Instructions
  import opened Seqs

  /** The number a two-byte big-endian sequence denotes. */
  function Value(b: seq<byte>): nat
    requires |b| == 2
  {
    b[0] as nat * 256 + b[1] as nat
  }

  lemma WordValue(w: nat)
    requires w < 0x1_0000
    ensures |Word(w)| == 2 && Value(Word(w)) == w
  {
  }

  /** A 16-bit word split into the fields a (bit 12), c (bits 6-11), d (bits 3-5), j (bits 0-2). */
  function Fields(w: nat): (nat, nat, nat, nat) {
    ((w / 0x1000) % 2, (w / 0x40) % 64, (w / 8) % 8, w % 8)
  }

  /** Decoding undoes the packing, so the packing is injective. */
  lemma FieldsOfPack(a: nat, c: nat, d: nat, j: nat)
    requires a < 2 && c < 64 && d < 8 && j < 8
    ensures Fields(Pack(a, c, d, j)) == (a, c, d, j)
    ensures 0xE000 <= Pack(a, c, d, j) <= 0xFFFF
  {
    var w := Pack(a, c, d, j);
    assert w == 0xE000 + a * 0x1000 + c * 0x40 + d * 8 + j;
    LowFields(a, c, d, j);
    HighField(a, c, d, j);
  }

  /** The jump and destination fields of a packed word. */
  lemma LowFields(a: nat, c: nat, d: nat, j: nat)
    requires a < 2 && c < 64 && d < 8 && j < 8
    ensures var w := 0xE000 + a * 0x1000 + c * 0x40 + d * 8 + j;
      w % 8 == j && (w / 8) % 8 == d && (w / 0x40) % 64 == c
  {
    var h1, h2 := 0x1C00 + a * 0x200 + c * 8 + d, 0x380 + a * 0x40 + c;
    DivModBy8(h1, j);
    DivModBy8(h2, d);
    DivModBy64(h2, d * 8 + j);
    DivModBy64(0xE + a, c);
  }

  /** The memory bit and the range of a packed word. */
  lemma HighField(a: nat, c: nat, d: nat, j: nat)
    requires a < 2 && c < 64 && d < 8 && j < 8
    ensures var w := 0xE000 + a * 0x1000 + c * 0x40 + d * 8 + j;
      (w / 0x1000) % 2 == a && 0xE000 <= w <= 0xFFFF
  {
    DivModBy4096(0xE + a, c * 0x40 + d * 8 + j);
  }

  lemma DivModBy8(q: nat, r: nat)
    requires r < 8
    ensures (q * 8 + r) % 8 == r && (q * 8 + r) / 8 == q
  {
  }

  lemma DivModBy64(q: nat, r: nat)
    requires r < 0x40
    ensures (q * 0x40 + r) % 0x40 == r && (q * 0x40 + r) / 0x40 == q
  {
  }

  lemma DivModBy4096(q: nat, r: nat)
    requires r < 0x1000
    ensures (q * 0x1000 + r) / 0x1000 == q
  {
  }

  lemma PackInjective(a: nat, c: nat, d: nat, j: nat, a': nat, c': nat, d': nat, j': nat)
    requires a < 2 && c < 64 && d < 8 && j < 8
    requires a' < 2 && c' < 64 && d' < 8 && j' < 8
    requires Pack(a, c, d, j) == Pack(a', c', d', j')
    ensures a == a' && c == c' && d == d' && j == j'
  {
    FieldsOfPack(a, c, d, j);
    FieldsOfPack(a', c', d', j');
  }

  /** An A-instruction encodes as its value in two big-endian bytes, top bit clear, exactly
      when the value is in 0..32767; otherwise it fails, too big first. */
  lemma AInstructionEncoding(v: int)
    ensures ToBytes(AInstruction(v)).Ok? <==> 0 <= v <= 32767
    ensures v > 32767 ==> ToBytes(AInstruction(v)) == Err(TooBig)
    ensures v < 0 ==> ToBytes(AInstruction(v)) == Err(TooSmall)
    ensures ToBytes(AInstruction(v)).Ok? ==>
      var b := ToBytes(AInstruction(v)).value;
      |b| == 2 && Value(b) == v && b[0] < 128
  {
    if 0 <= v <= 32767 {
      WordValue(v);
    }
  }

  /** A C-instruction encodes exactly when all three fields are in their tables. */
  lemma CInstructionAccepted(dest: string, comp: Comp, jump: string)
    ensures ToBytes(CInstruction(dest, comp, jump)).Ok? <==>
      CompCode(comp).Some? && DestCode(dest).Some? && JumpCode(jump).Some?
  {
  }

  /** A C-instruction word is `111 a cccccc ddd jjj` with the three table codes, so it lies
      in 0xE000..0xFFFF and every field can be read back from it. */
  lemma CInstructionEncoding(dest: string, comp: Comp, jump: string)
    requires ToBytes(CInstruction(dest, comp, jump)).Ok?
    ensures
      var b := ToBytes(CInstruction(dest, comp, jump)).value;
      var (a, c, d, j) := (ABit(comp), CompCode(comp).value, DestCode(dest).value, JumpCode(jump).value);
      |b| == 2 && Value(b) == 0xE000 + a * 0x1000 + c * 0x40 + d * 8 + j &&
      0xE000 <= Value(b) <= 0xFFFF && Fields(Value(b)) == (a, c, d, j)
  {
    var (a, c, d, j) := (ABit(comp), CompCode(comp).value, DestCode(dest).value, JumpCode(jump).value);
    assert ToBytes(CInstruction(dest, comp, jump)).value == Word(Pack(a, c, d, j));
    FieldsOfPack(a, c, d, j);
    WordValue(Pack(a, c, d, j));
  }

  /** The comp table is consulted before the dest table, and the dest table before the jump
      table; a C-instruction never fails with a range error. */
  lemma CInstructionErrorOrder(dest: string, comp: Comp, jump: string)
    ensures ToBytes(CInstruction(dest, comp, jump)) == Err(UnknownComp) <==> CompCode(comp).None?
    ensures ToBytes(CInstruction(dest, comp, jump)) == Err(UnknownDest) <==>
      CompCode(comp).Some? && DestCode(dest).None?
    ensures ToBytes(CInstruction(dest, comp, jump)) == Err(UnknownJump) <==>
      CompCode(comp).Some? && DestCode(dest).Some? && JumpCode(jump).None?
  {
  }

  /** `D=D` encodes to 0xE310. */
  lemma DEqualsDExample()
    ensures ToBytes(CInstruction("D", Comp("D", None), "")) == Ok([0xE3, 0x10])
  {
    DCodes();
    CWordOf("D", Comp("D", None), "", 0x0C, 2, 0);
    assert Word(0xE310) == [0xE3, 0x10];
  }

  /** A C-instruction whose three fields are in their tables encodes as the packed word. */
  lemma CWordOf(dest: string, comp: Comp, jump: string, c: nat, d: nat, j: nat)
    requires CompCode(comp) == Some(c) && DestCode(dest) == Some(d) && JumpCode(jump) == Some(j)
    ensures c < 64 && d < 8 && j < 8
    ensures ToBytes(CInstruction(dest, comp, jump)) == Ok(Word(0xE000 + ABit(comp) * 0x1000 + c * 0x40 + d * 8 + j))
  {
  }

  /** The table entries `D=D` uses. */
  lemma DCodes()
    ensures CompCode(Comp("D", None)) == Some(0x0C) && ABit(Comp("D", None)) == 0
    ensures DestCode("D") == Some(2) && JumpCode("") == Some(0)
  {
  }

  /** The `a` bit of an encoded word is set iff one of the operands is "M". */
  lemma ABitMeansMemory(dest: string, comp: Comp, jump: string)
    requires ToBytes(CInstruction(dest, comp, jump)).Ok?
    ensures var w := Value(ToBytes(CInstruction(dest, comp, jump)).value);
      (w / 0x1000) % 2 == 1 <==> comp.operand == "M" || (comp.rest.Some? && comp.rest.value.1 == "M")
  {
    CInstructionEncoding(dest, comp, jump);
  }

  /** The register/memory twin of a computation: every "A" operand becomes "M" and back. */
  function Twin(x: string): string {
    if x == "A" then "M" else if x == "M" then "A" else x
  }

  function TwinComp(comp: Comp): Comp {
    match comp.rest
    case None => Comp(Twin(comp.operand), None)
    case Some((op, y)) => Comp(Twin(comp.operand), Some((op, Twin(y))))
  }

  /** The A-form and the M-form of a computation share one 6-bit code; only `a` tells them
      apart. */
  lemma TwinSharesCode(comp: Comp)
    ensures CompCode(TwinComp(comp)) == CompCode(comp)
    ensures TwinComp(TwinComp(comp)) == comp
  {
  }

  /** The computations the three `match` statements accept: 5 without an operator, 7 unary
      and 16 binary. */
  const NullaryForms: seq<Comp> :=
    [Comp("0", None), Comp("1", None), Comp("D", None), Comp("A", None), Comp("M", None)]

  const UnaryForms: seq<Comp> :=
    [Comp("1", Some(("-", ""))), Comp("D", Some(("!", ""))), Comp("A", Some(("!", ""))),
     Comp("M", Some(("!", ""))), Comp("D", Some(("-", ""))), Comp("A", Some(("-", ""))),
     Comp("M", Some(("-", "")))]

  /** The binary forms with the constant 1. */
  const StepForms: seq<Comp> :=
    [Comp("D", Some(("+", "1"))), Comp("A", Some(("+", "1"))), Comp("M", Some(("+", "1"))),
     Comp("D", Some(("-", "1"))), Comp("A", Some(("-", "1"))), Comp("M", Some(("-", "1")))]
  /** The binary forms over two registers. */
  const PairForms: seq<Comp> :=
    [Comp("D", Some(("+", "A"))), Comp("D", Some(("+", "M"))),
     Comp("D", Some(("-", "A"))), Comp("D", Some(("-", "M"))),
     Comp("A", Some(("-", "D"))), Comp("M", Some(("-", "D"))),
     Comp("D", Some(("&", "A"))), Comp("D", Some(("&", "M"))),
     Comp("D", Some(("|", "A"))), Comp("D", Some(("|", "M")))]
  const BinaryForms: seq<Comp> := StepForms + PairForms

  const AllForms: seq<Comp> := NullaryForms + UnaryForms + BinaryForms

  /** Every listed form is accepted, and nothing else is. */
  lemma CompForms(comp: Comp)
    ensures CompCode(comp).Some? <==> comp in AllForms
  {
    if CompCode(comp).Some? {
      match comp.rest
      case None =>
        assert comp in NullaryForms;
      case Some((op, y)) =>
        if y == "" {
          assert comp in UnaryForms;
        } else {
          assert comp in BinaryForms;
        }
    } else {
      ListedFormsAccepted();
    }
  }

  lemma ListedFormsAccepted()
    ensures forall c | c in AllForms :: CompCode(c).Some?
  {
    NullaryFormsAccepted();
    UnaryFormsAccepted();
    BinaryFormsAccepted();
  }

  lemma NullaryFormsAccepted()
    ensures forall c | c in NullaryForms :: CompCode(c).Some?
  {
  }

  lemma UnaryFormsAccepted()
    ensures forall c | c in UnaryForms :: CompCode(c).Some?
  {
  }

  lemma BinaryFormsAccepted()
    ensures forall c | c in BinaryForms :: CompCode(c).Some?
  {
    forall k | 0 <= k < |BinaryForms| ensures CompCode(BinaryForms[k]).Some? {
      var c := BinaryForms[k];
      assert c.rest.Some? && c.rest.value.1 != "";
      assert BinaryCode(c.operand, c.rest.value.0, c.rest.value.1).Some?;
    }
  }

  lemma BinaryFormsShape()
    ensures forall c | c in BinaryForms :: c.rest.Some? && c.rest.value.1 != ""
  {
  }

  lemma BinaryFormsDistinct()
    ensures Distinct(BinaryForms)
  {
    StepFormsDistinct();
    PairFormsDistinct();
    DistinctConcat(StepForms, PairForms);
  }

  /** The forms with the constant 1 differ, and all have 1 as second operand. */
  lemma StepFormsDistinct()
    ensures Distinct(StepForms)
    ensures forall x | x in StepForms :: x.rest.Some? && x.rest.value.1 == "1"
  {
  }

  /** The forms over two registers differ, and none has 1 as second operand. */
  lemma PairFormsDistinct()
    ensures Distinct(PairForms)
    ensures forall y | y in PairForms :: y.rest.Some? && y.rest.value.1 != "1"
  {
  }

  lemma ShortFormsDistinct()
    ensures Distinct(NullaryForms + UnaryForms)
    ensures forall c | c in NullaryForms + UnaryForms :: c.rest.None? || c.rest.value.1 == ""
  {
    assert Distinct(NullaryForms) && Distinct(UnaryForms);
    assert forall c | c in NullaryForms :: c.rest.None?;
    assert forall c | c in UnaryForms :: c.rest.Some? && c.rest.value.1 == "";
    DistinctConcat(NullaryForms, UnaryForms);
  }

  lemma FormsDistinct()
    ensures Distinct(AllForms)
  {
    ShortFormsDistinct();
    BinaryFormsDistinct();
    BinaryFormsShape();
    DistinctConcat(NullaryForms + UnaryForms, BinaryForms);
  }

  /** The 28 forms are pairwise different: 5 + 7 + 16 distinct computations. */
  lemma CompFormsCounted()
    ensures |NullaryForms| == 5 && |UnaryForms| == 7 && |BinaryForms| == 16
    ensures |set c | c in AllForms| == 28
  {
    FormsDistinct();
    DistinctCount(AllForms);
  }

  lemma CompRejectsOperandOrder()
    ensures CompCode(Comp("A", Some(("+", "D")))).None?
    ensures CompCode(Comp("1", Some(("+", "D")))).None?
    ensures ToBytes(CInstruction("", Comp("A", Some(("+", "D"))), "")) == Err(UnknownComp)
  {
  }

  /** The destination registers named by the three d bits, in the order A, D, M. */
  function DestLetters(d: nat): string {
    (if (d / 4) % 2 == 1 then "A" else "") + (if (d / 2) % 2 == 1 then "D" else "") +
    (if d % 2 == 1 then "M" else "")
  }

  /** The dest table holds exactly the register letters in the order A, D, M, so "MD" and
      "AMD" (the book's spelling) are rejected. */
  lemma DestTable(dest: string, d: nat)
    ensures DestCode(dest) == Some(d) <==> d < 8 && dest == DestLetters(d)
    ensures DestCode("MD").None? && DestCode("AMD").None?
  {
    if DestCode(dest) == Some(d) {
      DestCodeLetters(dest);
    }
    if d < 8 {
      DestLettersCode(d);
    }
  }

  lemma DestCodeLetters(dest: string)
    requires DestCode(dest).Some?
    ensures DestLetters(DestCode(dest).value) == dest
  {
  }

  lemma DestLettersCode(d: nat)
    requires d < 8
    ensures DestCode(DestLetters(d)) == Some(d)
  {
    assert DestLetters(0) == "" && DestLetters(1) == "M" && DestLetters(2) == "D";
    assert DestLetters(3) == "DM" && DestLetters(4) == "A" && DestLetters(5) == "AM";
    assert DestLetters(6) == "AD" && DestLetters(7) == "ADM";
    assert d == 0 || d == 1 || d == 2 || d == 3 || d == 4 || d == 5 || d == 6 || d == 7;
  }

  /** When the Hack CPU takes a jump with bits j1 j2 j3, given the ALU output `out`. */
  predicate JumpTaken(j: nat, out: int) {
    ((j / 4) % 2 == 1 && out < 0) || ((j / 2) % 2 == 1 && out == 0) || (j % 2 == 1 && out > 0)
  }

  /** What each jump mnemonic means (no mnemonic: never jump). */
  predicate JumpCondition(jump: string, out: int) {
    match jump
    case "JGT" => out > 0
    case "JEQ" => out == 0
    case "JGE" => out >= 0
    case "JLT" => out < 0
    case "JNE" => out != 0
    case "JLE" => out <= 0
    case "JMP" => true
    case _ => false
  }

  /** The jump table gives every mnemonic the bits that make the CPU jump exactly when the
      mnemonic says, and no two mnemonics share a code. */
  lemma JumpTable(jump: string, jump': string, out: int)
    ensures JumpCode(jump).Some? ==>
      JumpCode(jump).value < 8 && (JumpTaken(JumpCode(jump).value, out) <==> JumpCondition(jump, out))
    ensures JumpCode(jump).Some? && JumpCode(jump) == JumpCode(jump') ==> jump == jump'
  {
  }

  /** `x.to_raw().to_bytes() == x.to_bytes()`, and `to_raw` fails exactly as `to_bytes`. */
  lemma ToRawKeepsBytes(x: Instruction)
    ensures ToRaw(x).Ok? <==> ToBytes(x).Ok?
    ensures ToRaw(x).Ok? ==> ToRaw(x).value.RawInstruction? && ToBytes(ToRaw(x).value) == ToBytes(x)
    ensures ToRaw(x).Err? ==> ToRaw(x).error == ToBytes(x).error
  {
  }
}
