/** `preassemble` of assembler.py as the imperative scanner it is: a cursor moved one
    character at a time, the variable `n`, the instruction list and the namespace. Every method
    is proved to compute what the matching function of `Grammar` describes. */
module Parser {
  import opened Wrappers
  import opened Chars
  import opened Instructions
  import opened Names
  import opened Cursor
  import opened Grammar

  /** `while i.has_next() and (n := next(i)) in C: tok += n`, with n0 in `n` beforehand. */
  method ReadRun(cur: Cursor, n0: char, cls: CharClass) returns (sc: Scanned)
    requires cur.Valid()
    modifies cur
    ensures cur.Valid()
    ensures sc == Extend(cur.text, Lex(old(cur.idx), n0), cls) && cur.idx == sc.lx.idx
  {
    var start := cur.idx;
    var tok := "";
    var n := n0;
    while cur.HasNext()
      invariant cur.Valid() && start <= cur.idx
      invariant tok == cur.text[start..cur.idx]
      invariant n == if cur.idx == start then n0 else cur.text[cur.idx - 1]
      invariant RunEnd(cur.text, start, cls) == RunEnd(cur.text, cur.idx, cls)
      decreases |cur.text| - cur.idx
    {
      var c := cur.Next();
      n := c.value;
      if !InClass(n, cls) {
        ExtendStopsAt(cur.text, Lex(start, n0), cur.idx - 1, cls);
        return Scanned(tok, Lex(cur.idx, n));
      }
      assert cur.text[start..cur.idx] == cur.text[start..cur.idx - 1] + [n];
      tok := tok + [n];
    }
    ExtendRunsOut(cur.text, Lex(start, n0), n, cls);
    sc := Scanned(tok, Lex(cur.idx, n));
  }

  /** The block-comment loop; false when `next` raises StopIteration. */
  method SkipBlockComment(cur: Cursor) returns (ok: bool)
    requires cur.Valid()
    modifies cur
    ensures cur.Valid()
    ensures BlockCommentEnd(cur.text, old(cur.idx)) == if ok then Some(cur.idx) else None
  {
    ghost var start := cur.idx;
    while true
      invariant cur.Valid()
      invariant BlockCommentEnd(cur.text, start) == BlockCommentEnd(cur.text, cur.idx)
      decreases |cur.text| - cur.idx
    {
      if cur.HasNext() {
        var c := cur.Next();
        if c.value != '*' {
          continue;
        }
      }
      var d := cur.Next();
      if d.None? {
        return false;
      }
      if d.value == '/' {
        return true;
      }
    }
  }

  /** The line-comment loop. */
  method SkipLineComment(cur: Cursor)
    requires cur.Valid()
    modifies cur
    ensures cur.Valid()
    ensures cur.idx == LineCommentEnd(cur.text, old(cur.idx))
  {
    ghost var start := cur.idx;
    while cur.HasNext()
      invariant cur.Valid() && start <= cur.idx
      invariant RunEnd(cur.text, start, NotNewline) == RunEnd(cur.text, cur.idx, NotNewline)
      decreases |cur.text| - cur.idx
    {
      var c := cur.Next();
      if c.value == '\n' {
        return;
      }
    }
  }

  /** A comment, after its first `/`. */
  method ParseComment(cur: Cursor) returns (r: Option<ParseError>)
    requires cur.Valid()
    modifies cur
    ensures cur.Valid()
    ensures Comment(cur.text, old(cur.idx)) == if r.Some? then Err(r.value) else Ok(cur.idx)
  {
    var c := cur.Next();
    if c.None? {
      return Some(EndOfInput);
    }
    if c.value == '*' {
      var ok := SkipBlockComment(cur);
      return if ok then None else Some(EndOfInput);
    } else if c.value == '/' {
      SkipLineComment(cur);
      return None;
    }
    return Some(SyntaxError("Expected '*' or '/' after '/'.", cur.idx));
  }

  /** `@number` or `@symbol`, after the `@`. */
  method ParseAddress(cur: Cursor, items: seq<Item>, names: map<string, int>) returns (r: Result<Progress, ParseError>)
    requires cur.Valid()
    modifies cur
    ensures cur.Valid()
    ensures r == Address(cur.text, old(cur.idx), items, names)
    ensures r.Ok? ==> cur.idx == r.value.lx.idx
  {
    if !cur.HasNext() {
      return Err(SyntaxError(NoAddress, cur.idx));
    }
    var c := cur.Next();
    var n := c.value;
    if IsDigit(n) {
      ghost var start := cur.idx;
      var sc := ReadRun(cur, n, Digit);
      ExtendInClass(cur.text, Lex(start, n), Digit);
      var dest := [n] + sc.tok;
      var v := DecimalValue(dest);
      if v > 32767 {
        return Err(SyntaxError("Expected number to be a number ranging from 0 to 32767.", cur.idx));
      }
      var at := cur.idx;
      r := match ToRaw(AInstruction(v))
        case Err(e) => Err(SyntaxError(e.Message(), at))
        case Ok(raw) => Ok(Progress(sc.lx, items + [Ready(raw)], names));
      return;
    } else if IsSymbolStart(n) {
      var sc := ReadRun(cur, n, Symbol);
      return Ok(Progress(sc.lx, items + [Named([n] + sc.tok)], names));
    }
    return Err(SyntaxError(NoAddress, cur.idx));
  }

  /** A label `(name)`, after the `(`: binds the name to the number of instructions so far. */
  method ParseLabel(cur: Cursor, ns: Namespace, items: seq<Item>) returns (r: Result<Progress, ParseError>)
    requires cur.Valid()
    modifies cur, ns
    ensures cur.Valid() && ns.highest == old(ns.highest)
    ensures r == Label(cur.text, old(cur.idx), items, old(ns.names))
    ensures r.Ok? ==> cur.idx == r.value.lx.idx && ns.names == r.value.names
  {
    if !cur.HasNext() {
      return Err(SyntaxError(NoLabel, cur.idx));
    }
    var c := cur.Next();
    var n := c.value;
    if !IsSymbolStart(n) {
      return Err(SyntaxError(NoLabel, cur.idx));
    }
    var name := [n];
    while true
      modifies cur
      invariant cur.Valid() && old(cur.idx) < cur.idx
      invariant name == cur.text[old(cur.idx)..cur.idx]
      invariant RunEnd(cur.text, old(cur.idx) + 1, Symbol) == RunEnd(cur.text, cur.idx, Symbol)
      decreases |cur.text| - cur.idx
    {
      c := cur.Next();
      if c.None? {
        return Err(EndOfInput);
      }
      n := c.value;
      if !IsSymbolChar(n) {
        break;
      }
      name := name + [n];
    }
    if n != ')' {
      return Err(SyntaxError("Expected ')' after '(' and a symbol.", cur.idx));
    }
    ns.names := ns.names[name := |items|];
    c := cur.Next();
    if c.None? {
      return Err(EndOfInput);
    }
    return Ok(Progress(Lex(cur.idx, c.value), items, ns.names));
  }

  /** The first operand of a C-instruction, whose first character n was just read. */
  method ReadHead(cur: Cursor, n: char) returns (r: Result<CParts, ParseError>)
    requires cur.Valid()
    modifies cur
    ensures cur.Valid()
    ensures r == CHead(cur.text, old(cur.idx), n)
    ensures r.Ok? ==> cur.idx == r.value.lx.idx
  {
    var compA := [n];
    var operator := "";
    if n == '!' || n == '-' {
      operator := [n];
      if !cur.HasNext() {
        return Err(SyntaxError(ExpectedOperand(operator), cur.idx));
      }
      var c := cur.Next();
      compA := [c.value];
    }
    var sc := ReadRun(cur, n, Symbol);
    return Ok(CParts(sc.lx, "", compA + sc.tok, operator, "", ""));
  }

  /** `=`: the computation read so far becomes dest and a new one is read. */
  method ReadAssign(cur: Cursor, p: CParts) returns (r: Result<CParts, ParseError>)
    requires cur.Valid() && cur.idx == p.lx.idx
    modifies cur
    ensures cur.Valid()
    ensures r == CAssign(cur.text, p)
    ensures r.Ok? ==> cur.idx == r.value.lx.idx
  {
    if p.lx.n != '=' {
      return Ok(p);
    }
    if p.op != "" {
      return Err(SyntaxError("Unexpected '='.", cur.idx));
    }
    var dest := p.compA;
    if !cur.HasNext() {
      return Err(SyntaxError(ExpectedOperand("="), cur.idx));
    }
    var c := cur.Next();
    var n := c.value;
    var operator := "";
    if n == '!' || n == '-' {
      operator := [n];
      if !cur.HasNext() {
        return Err(SyntaxError(ExpectedOperand(operator), cur.idx));
      }
      c := cur.Next();
      n := c.value;
    }
    var sc := ReadRun(cur, n, Symbol);
    var compA := [n] + sc.tok;
    // The source's `if not comp_part_a` branch cannot be taken: the operand holds `n`.
    assert compA != "";
    return Ok(p.(lx := sc.lx, dest := dest, compA := compA, op := operator));
  }

  /** A binary operator and the second operand. */
  method ReadBinary(cur: Cursor, p: CParts) returns (r: Result<CParts, ParseError>)
    requires cur.Valid() && cur.idx == p.lx.idx
    modifies cur
    ensures cur.Valid()
    ensures r == CBinary(cur.text, p)
    ensures r.Ok? ==> cur.idx == r.value.lx.idx
  {
    var n := p.lx.n;
    if !(n == '+' || n == '-' || n == '&' || n == '|') {
      return Ok(p);
    }
    if p.op != "" {
      return Err(SyntaxError("Unexpected '" + [n] + "'.", cur.idx));
    }
    var operator := [n];
    if !cur.HasNext() {
      return Err(SyntaxError(ExpectedOperand(operator), cur.idx));
    }
    var c := cur.Next();
    var sc := ReadRun(cur, c.value, Symbol);
    var compB := [c.value] + sc.tok;
    // The source's `if not comp_part_b` branch cannot be taken.
    assert compB != "";
    return Ok(p.(lx := sc.lx, op := operator, compB := compB));
  }

  /** `;` and the jump mnemonic. */
  method ReadJump(cur: Cursor, p: CParts) returns (r: Result<CParts, ParseError>)
    requires cur.Valid() && cur.idx == p.lx.idx
    modifies cur
    ensures cur.Valid()
    ensures r == CJump(cur.text, p)
    ensures r.Ok? ==> cur.idx == r.value.lx.idx
  {
    if p.lx.n != ';' {
      return Ok(p);
    }
    if !cur.HasNext() {
      return Err(SyntaxError("Expected 'J' after ';'.", cur.idx));
    }
    var c := cur.Next();
    var sc := ReadRun(cur, c.value, Symbol);
    var jump := [c.value] + sc.tok;
    // The source's `if not jump` branch cannot be taken.
    assert jump != "";
    return Ok(p.(lx := sc.lx, jump := jump));
  }

  /** A C-instruction whose first character n was just read, encoded on the spot. */
  method ParseCompute(cur: Cursor, n: char, items: seq<Item>, names: map<string, int>) returns (r: Result<Progress, ParseError>)
    requires cur.Valid()
    modifies cur
    ensures cur.Valid()
    ensures r == Compute(cur.text, old(cur.idx), n, items, names)
    ensures r.Ok? ==> cur.idx == r.value.lx.idx
  {
    var p := ReadHead(cur, n);
    if p.Err? {
      return Err(p.error);
    }
    p := ReadAssign(cur, p.value);
    if p.Err? {
      return Err(p.error);
    }
    p := ReadBinary(cur, p.value);
    if p.Err? {
      return Err(p.error);
    }
    p := ReadJump(cur, p.value);
    if p.Err? {
      return Err(p.error);
    }
    var raw := ToRaw(CInstructionOf(p.value));
    if raw.Err? {
      return Err(SyntaxError(raw.error.Message(), cur.idx));
    }
    return Ok(Progress(p.value.lx, items + [Ready(raw.value)], names));
  }

  /** The check for whitespace after an instruction or a label. */
  method CheckTrail(cur: Cursor, r: Result<Progress, ParseError>) returns (s: Step)
    requires r.Ok? ==> cur.idx == r.value.lx.idx
    ensures s == Trail(r)
    ensures s.Advance? ==> s.idx == cur.idx
  {
    if r.Err? {
      return Fail(r.error);
    }
    if !IsSpace(r.value.lx.n) {
      return Fail(SyntaxError("Expected whitespace.", cur.idx));
    }
    return Advance(cur.idx, r.value.items, r.value.names);
  }

  /** One construct, whose first character n was just read. */
  method ParseConstruct(cur: Cursor, ns: Namespace, items: seq<Item>, n: char) returns (s: Step)
    requires cur.Valid() && 0 < cur.idx
    modifies cur, ns
    ensures cur.Valid() && ns.highest == old(ns.highest)
    ensures s == Construct(cur.text, old(cur.idx), n, items, old(ns.names))
    ensures s.Advance? ==> cur.idx == s.idx && ns.names == s.names
  {
    if n == '/' {
      var e := ParseComment(cur);
      return if e.Some? then Fail(e.value) else Advance(cur.idx, items, ns.names);
    } else if n == '@' {
      var r := ParseAddress(cur, items, ns.names);
      s := CheckTrail(cur, r);
    } else if IsSymbolStart(n) || n == '-' || n == '1' || n == '0' || n == '!' {
      var r := ParseCompute(cur, n, items, ns.names);
      s := CheckTrail(cur, r);
    } else if n == '(' {
      var r := ParseLabel(cur, ns, items);
      s := CheckTrail(cur, r);
    } else {
      s := Fail(SyntaxError("Expected comment or instruction.", cur.idx));
    }
  }

  /** Reading on while `n` is whitespace: afterwards `n` is the first character that is not,
      just read, or the last character of the text. */
  method SkipSpace(cur: Cursor) returns (n: char)
    requires cur.Valid() && cur.HasNext()
    modifies cur
    ensures cur.Valid() && old(cur.idx) < cur.idx && n == cur.text[cur.idx - 1]
    ensures var k := RunEnd(cur.text, old(cur.idx), Space);
      if k == |cur.text| then cur.idx == |cur.text| && IsSpace(n) else cur.idx == k + 1
  {
    var c := cur.Next();
    n := c.value;
    while cur.HasNext() && IsSpace(n)
      invariant cur.Valid() && old(cur.idx) < cur.idx && n == cur.text[cur.idx - 1]
      invariant RunEnd(cur.text, old(cur.idx), Space) == RunEnd(cur.text, cur.idx - 1, Space)
      decreases |cur.text| - cur.idx
    {
      c := cur.Next();
      n := c.value;
    }
  }

  /** One pass of the outer loop: whitespace, then one construct. `stop` is the `break` taken
      when only whitespace was left. */
  method ParseStep(cur: Cursor, ns: Namespace, items: seq<Item>) returns (s: Step, stop: bool)
    requires cur.Valid() && cur.HasNext()
    modifies cur, ns
    ensures cur.Valid() && ns.highest == old(ns.highest)
    ensures s == StepAt(cur.text, old(cur.idx), items, old(ns.names))
    ensures s.Advance? ==> cur.idx == s.idx && ns.names == s.names
    ensures stop ==> s.Advance? && s.idx == |cur.text|
  {
    ghost var start := cur.idx;
    var n := SkipSpace(cur);
    if IsSpace(n) {
      return Advance(cur.idx, items, ns.names), true;
    }
    assert StepAt(cur.text, start, items, ns.names) == Construct(cur.text, cur.idx, n, items, ns.names);
    s := ParseConstruct(cur, ns, items, n);
    stop := false;
  }

  /** `preassemble`: the instruction list, with named A-instructions left unresolved, and the
      namespace holding the labels. */
  method Preassemble(asm: string) returns (r: Outcome, ns: Namespace)
    ensures fresh(ns) && ns.highest == FirstHighest
    ensures r == Preassembled(asm)
    ensures r.Done? ==> ns.names == r.names
  {
    ns := new Namespace();
    var items: seq<Item> := [];
    var cur := new Cursor(asm);
    while cur.HasNext()
      invariant cur.Valid() && cur.text == asm && fresh(cur)
      invariant ns.highest == FirstHighest
      invariant Run(asm, cur.idx, items, ns.names) == Preassembled(asm)
      decreases |asm| - cur.idx
    {
      var s, stop := ParseStep(cur, ns, items);
      if s.Fail? {
        return Failed(s.err), ns;
      }
      items := s.items;
      if stop {
        break;
      }
    }
    r := Done(items, ns.names);
  }
}
