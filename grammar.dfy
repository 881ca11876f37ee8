/** What `preassemble` of assembler.py computes, as functions over the source text.

    The scanner state after each read is the cursor index together with the character held in
    the variable `n`. A scanning loop that stops at the end of the text leaves in `n` the last
    character it read, which need not be the one just before the index (after `!` or `-` the
    operand is read without assigning `n`); `Lex` keeps the two apart. */
module Grammar {
  import opened Wrappers
  import opened Chars
  import opened Instructions
  import opened Names

  /** An entry of the instruction list: an encoded instruction or a `NamedAInstruction`. */
  datatype Item = Ready(instr: Instruction) | Named(name: string)

  /** A SyntaxError with its message and the cursor index, or a StopIteration escaping from
      `next`. */
  datatype ParseError = SyntaxError(msg: string, pos: nat) | EndOfInput

  /** The cursor index and the character in `n`. */
  datatype Lex = Lex(idx: nat, n: char)

  /** A token read by a scanning loop and the state that loop leaves. */
  datatype Scanned = Scanned(tok: string, lx: Lex)

  /** The state after one construct: scanner, instruction list and symbol table. */
  datatype Progress = Progress(lx: Lex, items: seq<Item>, names: map<string, int>)

  /** The outcome of one pass of the outer loop. */
  datatype Step = Advance(idx: nat, items: seq<Item>, names: map<string, int>) | Fail(err: ParseError)

  /** The outcome of the whole of `preassemble`. */
  datatype Outcome = Done(items: seq<Item>, names: map<string, int>) | Failed(err: ParseError)

  const NoAddress := "Expected symbol or number after '@'."
  const NoLabel := "Expected a symbol after '('."

  function ExpectedOperand(after: string): string {
    "Expected 'A', 'D', 'M' or number after '" + after + "'."
  }

  /** The end of the longest run of `cls` characters starting at index i. */
  function RunEnd(s: string, i: nat, cls: CharClass): (j: nat)
    requires i <= |s|
    ensures i <= j <= |s|
    ensures j < |s| ==> !InClass(s[j], cls)
    decreases |s| - i
  {
    if i == |s| || !InClass(s[i], cls) then i else RunEnd(s, i + 1, cls)
  }

  /** Every character of a run belongs to the class. */
  lemma {:induction false} RunInClass(s: string, i: nat, cls: CharClass)
    requires i <= |s|
    ensures forall k | i <= k < RunEnd(s, i, cls) :: InClass(s[k], cls)
    decreases |s| - i
  {
    if i < |s| && InClass(s[i], cls) {
      RunInClass(s, i + 1, cls);
    }
  }

  /** The loop `while i.has_next() and (n := next(i)) in C: tok += n`: the run of class
      characters is the token, and the character that ended it is consumed into `n`. */
  function Extend(s: string, lx: Lex, cls: CharClass): (r: Scanned)
    requires lx.idx <= |s|
    ensures lx.idx <= r.lx.idx <= |s|
  {
    var j := RunEnd(s, lx.idx, cls);
    if j < |s| then Scanned(s[lx.idx..j], Lex(j + 1, s[j]))
    else Scanned(s[lx.idx..], Lex(|s|, if j == lx.idx then lx.n else s[|s| - 1]))
  }

  /** Every character of a scanned token belongs to the class. */
  lemma ExtendInClass(s: string, lx: Lex, cls: CharClass)
    requires lx.idx <= |s|
    ensures forall k | 0 <= k < |Extend(s, lx, cls).tok| :: InClass(Extend(s, lx, cls).tok[k], cls)
  {
    RunInClass(s, lx.idx, cls);
  }

  /** The token is the run itself, and the cursor stops one past the character that ended it. */
  lemma ExtendRun(s: string, lx: Lex, cls: CharClass)
    requires lx.idx <= |s|
    ensures var j := RunEnd(s, lx.idx, cls);
      Extend(s, lx, cls).tok == s[lx.idx..j] && Extend(s, lx, cls).lx.idx == if j < |s| then j + 1 else j
  {
  }

  /** A scanning loop stopped by the character at index j. */
  lemma ExtendStopsAt(s: string, lx: Lex, j: nat, cls: CharClass)
    requires lx.idx <= j < |s| && !InClass(s[j], cls)
    requires RunEnd(s, lx.idx, cls) == RunEnd(s, j, cls)
    ensures Extend(s, lx, cls) == Scanned(s[lx.idx..j], Lex(j + 1, s[j]))
  {
  }

  /** A scanning loop stopped by the end of the text, with n the last character it read. */
  lemma ExtendRunsOut(s: string, lx: Lex, n: char, cls: CharClass)
    requires lx.idx <= |s| && RunEnd(s, lx.idx, cls) == |s|
    requires n == if |s| == lx.idx then lx.n else s[|s| - 1]
    ensures Extend(s, lx, cls) == Scanned(s[lx.idx..], Lex(|s|, n))
  {
  }

  /** The loop `while i.has_next() and next(i) != "*" or next(i) != "/": pass` from index q:
      the index after the `/` that ends it, or None when `next` runs out (StopIteration).
      Every `*` consumes the character after it, so a `*` right before the closing one hides
      it. */
  function BlockCommentEnd(s: string, q: nat): (r: Option<nat>)
    requires q <= |s|
    ensures r.Some? ==> q + 2 <= r.value <= |s| && s[r.value - 2] == '*' && s[r.value - 1] == '/'
    decreases |s| - q
  {
    if q == |s| then None
    else if s[q] != '*' then BlockCommentEnd(s, q + 1)
    else if q + 1 == |s| then None
    else if s[q + 1] != '/' then BlockCommentEnd(s, q + 2)
    else Some(q + 2)
  }

  /** The loop `while i.has_next() and next(i) != "\n": pass` from index q. */
  function LineCommentEnd(s: string, q: nat): (r: nat)
    requires q <= |s|
    ensures q <= r <= |s|
  {
    var j := RunEnd(s, q, NotNewline);
    if j < |s| then j + 1 else j
  }

  /** A comment, after its first `/` (index p): the index where scanning resumes. */
  function Comment(s: string, p: nat): (r: Result<nat, ParseError>)
    requires p <= |s|
    ensures r.Ok? ==> p < r.value <= |s|
  {
    if p == |s| then Err(EndOfInput)
    else if s[p] == '*' then
      match BlockCommentEnd(s, p + 1)
      case None => Err(EndOfInput)
      case Some(e) => Ok(e)
    else if s[p] == '/' then Ok(LineCommentEnd(s, p + 1))
    else Err(SyntaxError("Expected '*' or '/' after '/'.", p + 1))
  }

  /** `@number` or `@symbol`, after the `@` (index p). */
  function Address(s: string, p: nat, items: seq<Item>, names: map<string, int>): (r: Result<Progress, ParseError>)
    requires p <= |s|
    ensures r.Ok? ==> p < r.value.lx.idx <= |s| && r.value.names == names
  {
    if p == |s| then Err(SyntaxError(NoAddress, p))
    else if IsDigit(s[p]) then
      var sc := Extend(s, Lex(p + 1, s[p]), Digit);
      ExtendInClass(s, Lex(p + 1, s[p]), Digit);
      var v := DecimalValue([s[p]] + sc.tok);
      if v > 32767 then Err(SyntaxError("Expected number to be a number ranging from 0 to 32767.", sc.lx.idx))
      else
        match ToRaw(AInstruction(v))
        case Err(e) => Err(SyntaxError(e.Message(), sc.lx.idx))
        case Ok(raw) => Ok(Progress(sc.lx, items + [Ready(raw)], names))
    else if IsSymbolStart(s[p]) then
      var sc := Extend(s, Lex(p + 1, s[p]), Symbol);
      Ok(Progress(sc.lx, items + [Named([s[p]] + sc.tok)], names))
    else Err(SyntaxError(NoAddress, p + 1))
  }

  /** A label `(name)`, after the `(` (index p). The loop over the name has no `has_next`
      guard, and the character after `)` is read unconditionally. */
  function Label(s: string, p: nat, items: seq<Item>, names: map<string, int>): (r: Result<Progress, ParseError>)
    requires p <= |s|
    ensures r.Ok? ==> p < r.value.lx.idx <= |s| && r.value.items == items
  {
    if p == |s| then Err(SyntaxError(NoLabel, p))
    else if !IsSymbolStart(s[p]) then Err(SyntaxError(NoLabel, p + 1))
    else
      var j := RunEnd(s, p + 1, Symbol);
      if j == |s| then Err(EndOfInput)
      else if s[j] != ')' then Err(SyntaxError("Expected ')' after '(' and a symbol.", j + 1))
      else if j + 1 == |s| then Err(EndOfInput)
      else Ok(Progress(Lex(j + 2, s[j + 1]), items, names[s[p..j] := |items|]))
  }

  /** The local variables of the C-instruction branch. */
  datatype CParts = CParts(lx: Lex, dest: string, compA: string, op: string, compB: string, jump: string)

  /** The first operand, with an optional leading `!` or `-`; n is the character at p - 1. */
  function CHead(s: string, p: nat, n: char): (r: Result<CParts, ParseError>)
    requires p <= |s|
    ensures r.Ok? ==> p <= r.value.lx.idx <= |s|
  {
    if n == '!' || n == '-' then
      if p == |s| then Err(SyntaxError(ExpectedOperand([n]), p))
      else
        var sc := Extend(s, Lex(p + 1, n), Symbol);
        Ok(CParts(sc.lx, "", [s[p]] + sc.tok, [n], "", ""))
    else
      var sc := Extend(s, Lex(p, n), Symbol);
      Ok(CParts(sc.lx, "", [n] + sc.tok, "", "", ""))
  }

  /** `=`: what was read becomes dest, and the computation starts again. */
  function CAssign(s: string, c: CParts): (r: Result<CParts, ParseError>)
    requires c.lx.idx <= |s|
    ensures r.Ok? ==> c.lx.idx <= r.value.lx.idx <= |s|
  {
    var p := c.lx.idx;
    if c.lx.n != '=' then Ok(c)
    else if c.op != "" then Err(SyntaxError("Unexpected '='.", p))
    else if p == |s| then Err(SyntaxError(ExpectedOperand("="), p))
    else if s[p] == '!' || s[p] == '-' then
      if p + 1 == |s| then Err(SyntaxError(ExpectedOperand([s[p]]), p + 1))
      else
        var sc := Extend(s, Lex(p + 2, s[p + 1]), Symbol);
        Ok(c.(lx := sc.lx, dest := c.compA, compA := [s[p + 1]] + sc.tok, op := [s[p]]))
    else
      var sc := Extend(s, Lex(p + 1, s[p]), Symbol);
      Ok(c.(lx := sc.lx, dest := c.compA, compA := [s[p]] + sc.tok))
  }

  /** A binary operator `+ - & |` and the second operand. */
  function CBinary(s: string, c: CParts): (r: Result<CParts, ParseError>)
    requires c.lx.idx <= |s|
    ensures r.Ok? ==> c.lx.idx <= r.value.lx.idx <= |s|
  {
    var p := c.lx.idx;
    var n := c.lx.n;
    if !(n == '+' || n == '-' || n == '&' || n == '|') then Ok(c)
    else if c.op != "" then Err(SyntaxError("Unexpected '" + [n] + "'.", p))
    else if p == |s| then Err(SyntaxError(ExpectedOperand([n]), p))
    else
      var sc := Extend(s, Lex(p + 1, s[p]), Symbol);
      Ok(c.(lx := sc.lx, op := [n], compB := [s[p]] + sc.tok))
  }

  /** `;` and the jump mnemonic. */
  function CJump(s: string, c: CParts): (r: Result<CParts, ParseError>)
    requires c.lx.idx <= |s|
    ensures r.Ok? ==> c.lx.idx <= r.value.lx.idx <= |s|
  {
    var p := c.lx.idx;
    if c.lx.n != ';' then Ok(c)
    else if p == |s| then Err(SyntaxError("Expected 'J' after ';'.", p))
    else
      var sc := Extend(s, Lex(p + 1, s[p]), Symbol);
      Ok(c.(lx := sc.lx, jump := [s[p]] + sc.tok))
  }

  /** The CInstruction the parts describe. */
  function CInstructionOf(c: CParts): Instruction {
    CInstruction(c.dest, Comp(c.compA, if c.op != "" then Some((c.op, c.compB)) else None), c.jump)
  }

  /** Encoding the parts, with an encoder error reported at the cursor. */
  function CEmit(c: CParts, items: seq<Item>, names: map<string, int>): Result<Progress, ParseError> {
    match ToRaw(CInstructionOf(c))
    case Err(e) => Err(SyntaxError(e.Message(), c.lx.idx))
    case Ok(raw) => Ok(Progress(c.lx, items + [Ready(raw)], names))
  }

  /** The four phases of reading a C-instruction whose first character n is at index p - 1. */
  function ComputeParts(s: string, p: nat, n: char): (r: Result<CParts, ParseError>)
    requires p <= |s|
    ensures r.Ok? ==> p <= r.value.lx.idx <= |s|
  {
    match CHead(s, p, n)
    case Err(e) => Err(e)
    case Ok(c1) =>
      match CAssign(s, c1)
      case Err(e) => Err(e)
      case Ok(c2) =>
        match CBinary(s, c2)
        case Err(e) => Err(e)
        case Ok(c3) => CJump(s, c3)
  }

  /** A C-instruction `dest=comp;jump`, read and encoded. */
  function Compute(s: string, p: nat, n: char, items: seq<Item>, names: map<string, int>): (r: Result<Progress, ParseError>)
    requires p <= |s|
    ensures r.Ok? ==> p <= r.value.lx.idx <= |s| && r.value.names == names
  {
    match ComputeParts(s, p, n)
    case Err(e) => Err(e)
    case Ok(c) => CEmit(c, items, names)
  }

  /** The check `if n.strip(): raise SyntaxError("Expected whitespace.")` after a construct. */
  function Trail(r: Result<Progress, ParseError>): Step {
    match r
    case Err(e) => Fail(e)
    case Ok(pr) =>
      if IsSpace(pr.lx.n) then Advance(pr.lx.idx, pr.items, pr.names)
      else Fail(SyntaxError("Expected whitespace.", pr.lx.idx))
  }

  /** The construct whose first character n is at index p - 1. */
  function Construct(s: string, p: nat, n: char, items: seq<Item>, names: map<string, int>): (r: Step)
    requires 0 < p <= |s|
    ensures r.Advance? ==> p <= r.idx <= |s|
  {
    if n == '/' then
      match Comment(s, p)
      case Err(e) => Fail(e)
      case Ok(q) => Advance(q, items, names)
    else if n == '@' then Trail(Address(s, p, items, names))
    else if IsSymbolStart(n) || n == '-' || n == '1' || n == '0' || n == '!' then
      Trail(Compute(s, p, n, items, names))
    else if n == '(' then Trail(Label(s, p, items, names))
    else Fail(SyntaxError("Expected comment or instruction.", p))
  }

  /** One pass of the outer loop from index i: skip whitespace, then one construct. If only
      whitespace is left, the loop stops there. */
  function StepAt(s: string, i: nat, items: seq<Item>, names: map<string, int>): (r: Step)
    requires i < |s|
    ensures r.Advance? ==> i < r.idx <= |s|
  {
    var k := RunEnd(s, i, Space);
    if k == |s| then Advance(|s|, items, names)
    else Construct(s, k + 1, s[k], items, names)
  }

  /** The outer loop `while i.has_next()` from index i. */
  function Run(s: string, i: nat, items: seq<Item>, names: map<string, int>): Outcome
    requires i <= |s|
    decreases |s| - i
  {
    if i == |s| then Done(items, names)
    else
      match StepAt(s, i, items, names)
      case Fail(e) => Failed(e)
      case Advance(j, items', names') => Run(s, j, items', names')
  }

  /** `preassemble(asm)`: the instruction list and the names of the symbol table. */
  function Preassembled(asm: string): Outcome {
    Run(asm, 0, [], DefaultNames)
  }
}
