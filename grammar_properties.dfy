/** What the scanner of `preassemble` promises about comments, address directives, labels,
    C-instruction tokens and the whitespace after each construct. */
module GrammarProperties {
  import opened Wrappers
  import opened Chars
  import opened Instructions
  import opened Names
  import opened Grammar
  import EncoderProperties

  /** A run ends exactly at the first character outside the class. */
  lemma {:induction false} RunEndAt(s: string, i: nat, j: nat, cls: CharClass)
    requires i <= j <= |s|
    requires forall k | i <= k < j :: InClass(s[k], cls)
    requires j == |s| || !InClass(s[j], cls)
    ensures RunEnd(s, i, cls) == j
    decreases j - i
  {
    if i < j {
      RunEndAt(s, i + 1, j, cls);
    }
  }

  /** A block comment ends at the first star followed by a slash when no other star comes
      before it. */
  lemma {:induction false} BlockCommentCloses(s: string, q: nat, t: nat)
    requires q <= t && t + 1 < |s| && s[t] == '*' && s[t + 1] == '/'
    requires forall k | q <= k < t :: s[k] != '*'
    ensures BlockCommentEnd(s, q) == Some(t + 2)
    decreases t - q
  {
    if q < t {
      BlockCommentCloses(s, q + 1, t);
    }
  }

  /** Without any `*` the comment runs into the end of the text. */
  lemma {:induction false} BlockCommentUnterminated(s: string, q: nat)
    requires q <= |s|
    requires forall k | q <= k < |s| :: s[k] != '*'
    ensures BlockCommentEnd(s, q) == None
    decreases |s| - q
  {
    if q < |s| {
      BlockCommentUnterminated(s, q + 1);
    }
  }

  /** The character after each star is consumed by the test of that star: in two stars and a
      slash the second star is eaten, so the comment is not closed; a star and a slash apart do
      not close it either, and a later star-slash pair still does. */
  lemma BlockCommentCases()
    ensures BlockCommentEnd("**/", 0) == None
    ensures BlockCommentEnd(" * / */", 0) == Some(7)
    ensures BlockCommentEnd("a*/b", 0) == Some(3)
  {
    BlockCommentUnterminated("**/", 2);
    BlockCommentCloses(" * / */", 5, 5);
    BlockCommentCloses("a*/b", 0, 1);
  }

  /** `//` consumes up to and including the next newline, or to the end of the text. */
  lemma LineCommentConsumesLine(s: string, q: nat, t: nat)
    requires q <= t <= |s|
    requires forall k | q <= k < t :: s[k] != '\n'
    requires t == |s| || s[t] == '\n'
    ensures LineCommentEnd(s, q) == if t == |s| then |s| else t + 1
  {
    RunEndAt(s, q, t, NotNewline);
  }

  /** Empty input, or input of whitespace only, gives an empty list and the predefined table. */
  lemma WhitespaceOnly(s: string)
    requires forall k | 0 <= k < |s| :: IsSpace(s[k])
    ensures Preassembled(s) == Done([], DefaultNames)
  {
    if |s| > 0 {
      RunEndAt(s, 0, |s|, Space);
      assert StepAt(s, 0, [], DefaultNames) == Advance(|s|, [], DefaultNames);
      assert Run(s, |s|, [], DefaultNames) == Done([], DefaultNames);
    }
  }

  /** The number written by the maximal run of digits at index p. */
  function NumberAt(s: string, p: nat): nat
    requires p < |s| && IsDigit(s[p])
  {
    RunInClass(s, p, Digit);
    DecimalValue(s[p..RunEnd(s, p, Digit)])
  }

  /** The digits after `@` are the ones `Address` reads. */
  lemma AddressDigits(s: string, p: nat)
    requires p < |s| && IsDigit(s[p])
    ensures var sc := Extend(s, Lex(p + 1, s[p]), Digit);
      var j := RunEnd(s, p, Digit);
      [s[p]] + sc.tok == s[p..j] && sc.lx.idx == if j < |s| then j + 1 else j
  {
    RunEndStep(s, p, Digit);
    ExtendRun(s, Lex(p + 1, s[p]), Digit);
    ConsSlice(s, p, RunEnd(s, p, Digit));
  }

  /** A run that starts with a class character ends where the run after it ends. */
  lemma RunEndStep(s: string, p: nat, cls: CharClass)
    requires p < |s| && InClass(s[p], cls)
    ensures RunEnd(s, p, cls) == RunEnd(s, p + 1, cls)
  {
  }

  lemma ConsSlice(s: string, p: nat, j: nat)
    requires p < j <= |s|
    ensures [s[p]] + s[p + 1..j] == s[p..j]
  {
  }

  /** `@digits` above 32767 is an error at the cursor after the digits. */
  lemma AddressTooBig(s: string, p: nat, items: seq<Item>, names: map<string, int>)
    requires p < |s| && IsDigit(s[p]) && NumberAt(s, p) > 32767
    ensures var j := RunEnd(s, p, Digit);
      Address(s, p, items, names) ==
        Err(SyntaxError("Expected number to be a number ranging from 0 to 32767.", if j < |s| then j + 1 else j))
  {
    AddressDigits(s, p);
  }

  /** `@digits` up to 32767 appends one raw word holding the number, big-endian with the top
      bit clear. */
  lemma AddressNumber(s: string, p: nat, items: seq<Item>, names: map<string, int>)
    requires p < |s| && IsDigit(s[p]) && NumberAt(s, p) <= 32767
    ensures var r := Address(s, p, items, names);
      r.Ok? && r.value.names == names && |r.value.items| == |items| + 1 && r.value.items[..|items|] == items &&
      var last := r.value.items[|items|];
      last.Ready? && last.instr.RawInstruction? && |last.instr.bytes| == 2 &&
      EncoderProperties.Value(last.instr.bytes) == NumberAt(s, p) && last.instr.bytes[0] < 128
  {
    AddressDigits(s, p);
    EncoderProperties.AInstructionEncoding(NumberAt(s, p));
    assert (items + [Address(s, p, items, names).value.items[|items|]])[..|items|] == items;
  }

  /** `@symbol`: one placeholder holding the maximal run of symbol characters. */
  lemma AddressSymbol(s: string, p: nat, items: seq<Item>, names: map<string, int>)
    requires p < |s| && IsSymbolStart(s[p])
    ensures var j := RunEnd(s, p, Symbol);
      Address(s, p, items, names) == Ok(Progress(if j < |s| then Lex(j + 1, s[j]) else Lex(j, s[j - 1]), items + [Named(s[p..j])], names)) &&
      (j == |s| || !IsSymbolChar(s[j]))
  {
    var j := RunEnd(s, p, Symbol);
    assert RunEnd(s, p, Symbol) == RunEnd(s, p + 1, Symbol);
    assert [s[p]] + s[p + 1..j] == s[p..j];
    var sc := Extend(s, Lex(p + 1, s[p]), Symbol);
    assert sc.tok == s[p + 1..j];
    assert sc.lx == if j < |s| then Lex(j + 1, s[j]) else Lex(j, s[j - 1]);
    assert !IsDigit(s[p]);
  }

  /** `@` at the end of the text, or before anything but a digit or a symbol, is an error. */
  lemma AddressMissing(s: string, p: nat, items: seq<Item>, names: map<string, int>)
    requires p <= |s| && (p == |s| || !(IsDigit(s[p]) || IsSymbolStart(s[p])))
    ensures Address(s, p, items, names) == Err(SyntaxError(NoAddress, if p == |s| then p else p + 1))
  {
  }

  /** A label emits nothing and binds its name to the number of entries already in the list,
      replacing any earlier binding. */
  lemma LabelBinds(s: string, p: nat, items: seq<Item>, names: map<string, int>)
    requires p <= |s| && Label(s, p, items, names).Ok?
    ensures var pr := Label(s, p, items, names).value;
      var j := RunEnd(s, p, Symbol);
      p < j < |s| && s[j] == ')' && IsSymbolStart(s[p]) &&
      pr.items == items && pr.names == names[s[p..j] := |items|] && pr.names[s[p..j]] == |items|
  {
    assert RunEnd(s, p, Symbol) == RunEnd(s, p + 1, Symbol);
  }

  /** The source's checks for an empty operand after `=`, an empty second operand and an empty
      jump can never fire: each token starts with a character already read. */
  lemma TokensNonempty(s: string, c: CParts)
    requires c.lx.idx <= |s|
    ensures c.lx.n == '=' && CAssign(s, c).Ok? ==> CAssign(s, c).value.compA != ""
    ensures (c.lx.n == '+' || c.lx.n == '-' || c.lx.n == '&' || c.lx.n == '|') && CBinary(s, c).Ok? ==>
      CBinary(s, c).value.compB != ""
    ensures c.lx.n == ';' && CJump(s, c).Ok? ==> CJump(s, c).value.jump != ""
  {
  }

  /** The scanner state is faithful to the text where it matters: a whitespace character in
      `n` is the character just before the cursor. */
  predicate Follows(s: string, lx: Lex) {
    0 < lx.idx <= |s| && (IsSpace(lx.n) ==> s[lx.idx - 1] == lx.n)
  }

  lemma ExtendFollows(s: string, lx: Lex, cls: CharClass)
    requires Follows(s, lx)
    ensures Follows(s, Extend(s, lx, cls).lx)
  {
  }

  lemma ComputeFollows(s: string, p: nat, n: char)
    requires 0 < p <= |s| && n == s[p - 1]
    ensures ComputeParts(s, p, n).Ok? ==> Follows(s, ComputeParts(s, p, n).value.lx)
  {
    if n == '!' || n == '-' {
      if p < |s| {
        ExtendFollows(s, Lex(p + 1, n), Symbol);
      }
    } else {
      ExtendFollows(s, Lex(p, n), Symbol);
    }
    var c1 := CHead(s, p, n);
    if c1.Ok? {
      AssignFollows(s, c1.value);
      var c2 := CAssign(s, c1.value);
      if c2.Ok? {
        BinaryFollows(s, c2.value);
        var c3 := CBinary(s, c2.value);
        if c3.Ok? {
          JumpFollows(s, c3.value);
        }
      }
    }
  }

  lemma AssignFollows(s: string, c: CParts)
    requires Follows(s, c.lx)
    ensures CAssign(s, c).Ok? ==> Follows(s, CAssign(s, c).value.lx)
  {
    var p := c.lx.idx;
    if c.lx.n == '=' && c.op == "" && p < |s| {
      if s[p] == '!' || s[p] == '-' {
        if p + 1 < |s| {
          ExtendFollows(s, Lex(p + 2, s[p + 1]), Symbol);
        }
      } else {
        ExtendFollows(s, Lex(p + 1, s[p]), Symbol);
      }
    }
  }

  lemma BinaryFollows(s: string, c: CParts)
    requires Follows(s, c.lx)
    ensures CBinary(s, c).Ok? ==> Follows(s, CBinary(s, c).value.lx)
  {
    var p := c.lx.idx;
    if p < |s| {
      ExtendFollows(s, Lex(p + 1, s[p]), Symbol);
    }
  }

  lemma JumpFollows(s: string, c: CParts)
    requires Follows(s, c.lx)
    ensures CJump(s, c).Ok? ==> Follows(s, CJump(s, c).value.lx)
  {
    var p := c.lx.idx;
    if p < |s| {
      ExtendFollows(s, Lex(p + 1, s[p]), Symbol);
    }
  }

  lemma AddressFollows(s: string, p: nat, items: seq<Item>, names: map<string, int>)
    requires 0 < p <= |s|
    ensures Address(s, p, items, names).Ok? ==> Follows(s, Address(s, p, items, names).value.lx)
  {
    if p < |s| {
      ExtendFollows(s, Lex(p + 1, s[p]), if IsDigit(s[p]) then Digit else Symbol);
    }
  }

  lemma LabelFollows(s: string, p: nat, items: seq<Item>, names: map<string, int>)
    requires 0 < p <= |s|
    ensures Label(s, p, items, names).Ok? ==> Follows(s, Label(s, p, items, names).value.lx)
  {
  }

  lemma ComputeResultFollows(s: string, p: nat, n: char, items: seq<Item>, names: map<string, int>)
    requires 0 < p <= |s| && n == s[p - 1]
    ensures Compute(s, p, n, items, names).Ok? ==> Follows(s, Compute(s, p, n, items, names).value.lx)
  {
    ComputeFollows(s, p, n);
  }

  /** The character before index j is whitespace. */
  predicate SpaceBefore(s: string, j: nat) {
    0 < j <= |s| && IsSpace(s[j - 1])
  }

  /** The whitespace check passes only on a whitespace character just before the cursor. */
  lemma TrailFollows(s: string, r: Result<Progress, ParseError>)
    requires r.Ok? ==> Follows(s, r.value.lx)
    ensures Trail(r).Advance? ==> SpaceBefore(s, Trail(r).idx)
  {
  }

  /** Every construct but a comment is accepted only when the character right after it is
      whitespace; an instruction that ends the text, with nothing after it, is rejected. */
  lemma ConstructFollowedBySpace(s: string, p: nat, n: char, items: seq<Item>, names: map<string, int>)
    requires 0 < p <= |s| && n == s[p - 1] && n != '/'
    requires Construct(s, p, n, items, names).Advance?
    ensures SpaceBefore(s, Construct(s, p, n, items, names).idx)
  {
    var st := Construct(s, p, n, items, names);
    var r: Result<Progress, ParseError>;
    if n == '@' {
      r := Address(s, p, items, names);
      AddressFollows(s, p, items, names);
    } else if IsSymbolStart(n) || n == '-' || n == '1' || n == '0' || n == '!' {
      r := Compute(s, p, n, items, names);
      ComputeResultFollows(s, p, n, items, names);
    } else {
      r := Label(s, p, items, names);
      LabelFollows(s, p, items, names);
    }
    assert st == Trail(r);
    TrailFollows(s, r);
  }

  /** A comment is not followed by the whitespace check: scanning resumes right where the
      comment ends, whatever character comes next. */
  lemma CommentSkipsWhitespaceCheck(s: string, p: nat, items: seq<Item>, names: map<string, int>)
    requires 0 < p <= |s| && Comment(s, p).Ok?
    ensures Construct(s, p, '/', items, names) == Advance(Comment(s, p).value, items, names)
  {
  }

  /** A construct other than a comment with no whitespace anywhere after its first character
      fails: in particular an instruction that ends the text is rejected. */
  lemma NoSpaceAfterFails(s: string, p: nat, n: char, items: seq<Item>, names: map<string, int>)
    requires 0 < p <= |s| && n == s[p - 1] && n != '/'
    requires forall k | p - 1 <= k < |s| :: !IsSpace(s[k])
    ensures Construct(s, p, n, items, names).Fail?
  {
    if Construct(s, p, n, items, names).Advance? {
      ConstructFollowedBySpace(s, p, n, items, names);
    }
  }

  /** Without any whitespace, the first step from index 0 fails unless it is a comment. */
  lemma UnspacedStepFails(s: string, items: seq<Item>, names: map<string, int>)
    requires |s| > 0 && s[0] != '/'
    requires forall k | 0 <= k < |s| :: !IsSpace(s[k])
    ensures StepAt(s, 0, items, names).Fail?
  {
    RunEndAt(s, 0, 0, Space);
    NoSpaceAfterFails(s, 1, s[0], items, names);
  }

  /** A nonempty program without any whitespace that does not start with a comment is
      rejected. */
  lemma UnspacedProgramFails(s: string)
    requires |s| > 0 && s[0] != '/'
    requires forall k | 0 <= k < |s| :: !IsSpace(s[k])
    ensures Preassembled(s).Failed?
  {
    UnspacedStepFails(s, [], DefaultNames);
  }
}
