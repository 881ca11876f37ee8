# Hack assembler: a verified model

This project models the Hack assembler of nand2tetris project 6. The model covers
`assembler.py` and the instruction encoder in `projects/06/instructions.py`.

`assemble(asm)` runs in three stages:
1. `preassemble` scans the text in a single pass. The scan produces:
   - a list of entries, each one either
     - an already encoded `RawInstruction` (for `@number` and C-instructions), or
     - a `NamedAInstruction` placeholder (for `@symbol`);
   - a `Namespace`: a symbol table plus the counter `highest_name`. Labels `(name)` write
     into the symbol table during the scan.
2. Every placeholder is then resolved, in list order, through `Namespace.resolve`.
3. Finally, every instruction is encoded to a 2-byte big-endian word and the words are
   concatenated.

The model is split into these modules:

- `Instructions` (`instructions.dfy`) is the pure encoder. It has these parts:
  - the dest and jump tables;
  - the three `match` statements of the computation table;
  - the `a` bit;
  - Python's `|` on naturals (`BitOr`) and the packing `111 a cccccc ddd jjj`;
  - `to_bytes` of the three instruction kinds, and `to_raw`.

  Errors are values of `EncodeError`, which carry the source's exact messages.
- `Chars` holds the character classes the scanner tests: `str.isspace`, digits, and the
  two symbol alphabets.
- `Cursor` is `ParserIterator`: a class with an immutable text and one mutable index.
  `Next` returns `None` where Python raises `StopIteration`.
- `Names` holds the predefined table and the `Namespace` class with its `Resolve` method.
  `Resolve` is proved equal to the function `Resolution`.
- `Grammar` is the functional specification of `preassemble`. It is one function per
  construct (comments, `@`, C-instructions, labels, and the whitespace check), plus the
  outer loop `Run`.
  - Python's `n` variable is modelled explicitly as part of the scanner state `Lex(idx, n)`.
    After a scanning loop reaches the end of the text, `n` still holds the last character
    read.
  - A `StopIteration` that escapes the loop is the error `EndOfInput`, kept separate from
    `SyntaxError(message, position)`. The position is the cursor index at the raise.
- `Parser` is `preassemble` itself: imperative code over a `Cursor` and a `Namespace`,
  with a `while` loop per scanning loop of the source. Each method is proved to compute
  exactly the `Grammar` function of its construct, and `Preassemble` to compute
  `Grammar.Preassembled`.
- `Pipeline` holds `resolve_if_named_a_instruction` and `assemble`. `ResolveAll` is a loop
  over a live `Namespace`. `JoinAll` is a loop that stops at the first encoding error.
  Both are proved against their spec functions.
- `CLineProperties` follows the C-instruction branch over a well-formed line
  `dest=comp;jump` that is followed by whitespace. There is one lemma per scanning phase.
  `ComputeLine` and `ComputeLineEntry` give the whole line; the first states the parts read
  back, the second the entry appended. `ConstructLine` adds the whitespace check.
- `EncoderProperties`, `NamesProperties`, `GrammarProperties` and `PipelineProperties` hold
  the lemmas. `Seqs` and `Wrappers` are small helpers.

Notable behaviour of the code, which the model keeps:
- **Zero-valued names.** `resolve` tests the truthiness of the stored address
  (assembler.py:38). A name bound to 0 therefore counts as unbound and gets a fresh address.
  This covers `R0`, `SP`, and a label placed before the first instruction.
  `NamesProperties.ZeroNamesReallocated` shows it. So reserved names are *not* always kept.
- **End of input after an instruction.** Such an instruction is not accepted. The last
  character read stays in `n`, so the whitespace check fails. After a label, the
  unconditional `next` raises `StopIteration`. See `GrammarProperties.NoSpaceAfterFails`
  and `GrammarProperties.UnspacedProgramFails`.
- **Unterminated comments.** An unterminated block comment ends in `StopIteration`, not
  in a `SyntaxError`. So does a `/` at the end of the text.
- **Instruction at the end of the text.** An instruction that ends the text is rejected,
  with or without a comment before it: `// c\n@5`, `/* c */ @5` and `@5` all fail. With a
  trailing newline all three are accepted.
- **Block-comment close.** `**/` does not close a block comment. The test of each `*`
  consumes the character after it (`GrammarProperties.BlockCommentCases`).
- **Dest spellings.** The dest table spells `DM` and `ADM`, so `MD` and `AMD` are
  rejected (`EncoderProperties.DestTable`).

## Model

| member | source | states |
|---|---|---|
| Chars.IsSpace | assembler.py:78-80 | definition: the characters `str.strip()` removes, Python's `isspace` set, so `not n.strip()` on one character |
| Chars.IsDigit | assembler.py:99-100 | definition: `str.isnumeric` restricted to the ASCII digits (see "Left out") |
| Chars.IsSymbolStart | assembler.py:49 | definition: membership in SYMBOL_START_CHARS |
| Chars.IsSymbolChar | assembler.py:48 | definition: membership in SYMBOL_CHARS, the start characters and the digits |
| Chars.DecimalValue | assembler.py:102 | definition: `int(dest)` of a string of ASCII digits; `GrammarProperties.AddressNumber` states the word it gives |
| Cursor.Cursor.constructor | assembler.py:51-54 | a fresh cursor holds the text at index 0 |
| Cursor.Cursor.Next | assembler.py:56-62 | before the end: returns the character at the index and advances by exactly one; at the end: StopIteration (None), index unchanged; the index stays between 0 and the length of the text |
| Cursor.Cursor.GoBack | assembler.py:67-70 | fails exactly when the index is 0; otherwise moves back one; bounds kept |
| Cursor.Cursor.HasNext | assembler.py:64-65 | definition: some character is left at the index |
| Names.Resolution | assembler.py:37-42 | definition of `resolve` as a value: the address returned, the table and the counter it leaves; `Names.Namespace.Resolve` is proved to compute it |
| Names.Namespace.constructor | assembler.py:32-35 | a fresh namespace holds the predefined table and counter 15 |
| Names.Namespace.Resolve | assembler.py:37-42 | returns the address and leaves the table and counter that `Resolution` describes: a name bound to a nonzero address is returned unchanged, and anything else gets counter + 1 |
| NamesProperties.DefaultNamesKeys | assembler.py:6-30 | the predefined names are exactly R0..R15, SP, LCL, ARG, THIS, THAT, SCREEN, KBD |
| NamesProperties.PredefinedDistinct | assembler.py:6-30 | those 23 names are pairwise different |
| NamesProperties.DefaultNamesContents | assembler.py:6-30 | 23 entries: Rk maps to k, SP..THAT map to 0..4, SCREEN to 16384, KBD to 24576 |
| NamesProperties.RegisterAddresses | assembler.py:7-22 | every register name Rk is bound to k |
| NamesProperties.ResolveChangesNothingIffBound | assembler.py:37-42 | resolve leaves table and counter unchanged if and only if the name is bound to a nonzero address; otherwise the counter grows by one |
| NamesProperties.ResolveBindsName | assembler.py:37-42 | with a nonnegative counter: the address is nonzero and bound to the name afterwards; the key set grows by the name only; every other binding is unchanged |
| NamesProperties.ResolveTwice | assembler.py:37-42 | resolving the same name again returns the same address and changes nothing |
| NamesProperties.PredefinedResolve | assembler.py:6-39 | a predefined name with nonzero address resolves to it without change |
| NamesProperties.ZeroNamesReallocated | assembler.py:38-42 | R0 and SP are re-allocated to 16 on a fresh namespace; after SP, R0 gets 17 |
| Parser.ReadRun | assembler.py:126-127 | the shared loop `while has_next() and (n := next()) in CLASS` reads exactly the run `Grammar.Extend` describes and leaves the cursor after it |
| Parser.SkipBlockComment | assembler.py:84-87 | succeeds exactly when `Grammar.BlockCommentEnd` finds the close, and stops the cursor there |
| Parser.SkipLineComment | assembler.py:88-91 | leaves the cursor where `Grammar.LineCommentEnd` says: after the next newline, or at the end |
| Parser.ParseComment | assembler.py:82-93 | computes `Grammar.Comment`: resume index, EndOfInput, or the "Expected '*' or '/'" error |
| Parser.ParseAddress | assembler.py:94-114 | computes `Grammar.Address` for `@number` and `@symbol`, with the cursor at the scanner index |
| Parser.ParseLabel | assembler.py:173-185 | computes `Grammar.Label` and writes the label binding into the namespace |
| Parser.ReadHead | assembler.py:115-127 | computes `Grammar.CHead`: an optional `!`/`-`, then the first operand token |
| Parser.ReadAssign | assembler.py:128-145 | computes `Grammar.CAssign`: after `=`, the token read becomes dest and the computation restarts |
| Parser.ReadBinary | assembler.py:146-158 | computes `Grammar.CBinary`: a binary operator and the second operand |
| Parser.ReadJump | assembler.py:159-168 | computes `Grammar.CJump`: after `;`, the jump mnemonic |
| Parser.ParseCompute | assembler.py:115-172 | computes `Grammar.Compute`: the four phases, then `to_raw`, with encoder errors re-raised at the cursor |
| Parser.CheckTrail | assembler.py:188-189 | computes `Grammar.Trail`: the construct is accepted only when `n` is whitespace |
| Parser.ParseConstruct | assembler.py:82-187 | computes `Grammar.Construct`: dispatch on the first character |
| Parser.SkipSpace | assembler.py:76-81 | the whitespace loop stops just past the first non-space, or at the end with `n` still whitespace |
| Parser.ParseStep | assembler.py:76-189 | one pass of the outer loop equals `Grammar.StepAt`; `break` only at the end of the text |
| Parser.Preassemble | assembler.py:72-190 | the whole scan equals `Grammar.Preassembled`; the namespace returned holds its table and counter 15 |
| Grammar.RunEnd | assembler.py:100-165 | where a loop `while i.has_next() and (n := next(i)) in CLASS` stops (lines 100, 110, 126, 141, 154, 164): not before the start, within the text, and at a character outside the class when one is left |
| Grammar.Extend | assembler.py:126-127 | the token such a loop appends and the cursor and `n` it leaves; the cursor never moves back; `Grammar.ExtendRun` and `Grammar.ExtendInClass` state the token |
| Grammar.BlockCommentEnd | assembler.py:85-86 | a close it finds lies past the start, within the text, just after a `*` and a `/`; `GrammarProperties.BlockCommentCloses` and `GrammarProperties.BlockCommentUnterminated` state when it finds one |
| Grammar.LineCommentEnd | assembler.py:89-90 | the resume index lies between the start and the end of the text; `GrammarProperties.LineCommentConsumesLine` states it exactly |
| Grammar.CHead | assembler.py:115-127 | an accepted head does not move the cursor back; `CLineProperties.HeadToken` and `CLineProperties.HeadUnaryToken` state what it reads |
| Grammar.CAssign | assembler.py:128-145 | an accepted `=` phase does not move the cursor back; `CLineProperties.AssignToken` and `CLineProperties.AssignUnaryToken` state what it reads |
| Grammar.CBinary | assembler.py:146-158 | an accepted binary phase does not move the cursor back; `CLineProperties.BinaryToken` states what it reads |
| Grammar.CJump | assembler.py:159-168 | an accepted jump phase does not move the cursor back; `CLineProperties.JumpToken` states what it reads |
| Grammar.ComputeParts | assembler.py:115-168 | the four phases in order; an accepted read does not move the cursor back; `CLineProperties.ComputeLine` states the parts of a well-formed line |
| Grammar.CEmit | assembler.py:169-172 | definition: `to_raw` of the parts appended, or the encoder's message re-raised at the cursor; `CLineProperties.ComputeLineEntry` states it on a well-formed line |
| Grammar.Trail | assembler.py:188-189 | definition: the whitespace check after a construct; `GrammarProperties.ConstructFollowedBySpace` and `GrammarProperties.NoSpaceAfterFails` state it |
| Grammar.ExtendRun | assembler.py:100-101 | the token a class loop reads is the maximal run of class characters, and the cursor ends one past the character that stopped it, or at the end of the text |
| Grammar.ExtendInClass | assembler.py:100-101 | every character of the token belongs to the class |
| Grammar.Comment | assembler.py:82-93 | after `/`: the index where scanning resumes, strictly past the `/`; the result the lemmas below and `Parser.ParseComment` describe |
| Grammar.Address | assembler.py:94-114 | after `@`: an accepted address advances past the `@` and leaves the table unchanged; the cases are the `Address*` lemmas below |
| Grammar.Compute | assembler.py:115-172 | a C-instruction from its first character: the cursor does not move back and the table is unchanged; `Parser.ParseCompute` is proved to compute it, and `CLineProperties.ComputeLineEntry` states its result on a well-formed line |
| Grammar.Label | assembler.py:173-185 | after `(`: emits nothing and advances; the binding is stated by `GrammarProperties.LabelBinds` |
| Grammar.Construct | assembler.py:82-189 | one construct chosen by its first character, with the whitespace check after it; an accepted one does not move the cursor back |
| Grammar.StepAt | assembler.py:76-189 | one pass of the outer loop; an accepted pass strictly advances |
| Grammar.Run | assembler.py:76-190 | definition: the outer loop, pass after pass from index i, until the end of the text or the first error |
| Grammar.Preassembled | assembler.py:72-190 | definition: `Run` from index 0 with no entries and the predefined table |
| GrammarProperties.BlockCommentCloses | assembler.py:85-86 | a block comment ends right after the first `*/` with no other `*` before it |
| GrammarProperties.BlockCommentUnterminated | assembler.py:85-86 | with no `*` left, the comment runs into the end of the text (StopIteration) |
| GrammarProperties.BlockCommentCases | assembler.py:85 | `**/` does not close; `* /` apart does not close; a later `*/` does |
| GrammarProperties.LineCommentConsumesLine | assembler.py:89-90 | `//` consumes up to and including the next newline, or to the end |
| GrammarProperties.CommentSkipsWhitespaceCheck | assembler.py:82-91 | after a comment, scanning resumes where it ended, with no whitespace check |
| GrammarProperties.WhitespaceOnly | assembler.py:76-81 | empty or whitespace-only text gives no entries and the predefined table |
| GrammarProperties.AddressDigits | assembler.py:99-101 | the digits read after `@` are exactly the maximal digit run, and the cursor ends one past it (or at the end) |
| GrammarProperties.AddressTooBig | assembler.py:102-104 | `@digits` above 32767 fails with the range message at the cursor after the digits |
| GrammarProperties.AddressNumber | assembler.py:99-106 | `@digits` up to 32767 appends one raw 2-byte word whose value is the number, top bit clear; the table is unchanged |
| GrammarProperties.AddressSymbol | assembler.py:109-112 | `@symbol` appends one placeholder holding the maximal run of symbol characters |
| GrammarProperties.AddressMissing | assembler.py:95-96 | `@` at the end, or before anything that starts neither a number nor a symbol, fails with "Expected symbol or number after '@'." |
| GrammarProperties.LabelBinds | assembler.py:173-185 | an accepted label emits nothing and binds its name to the number of entries so far, overwriting any binding |
| GrammarProperties.TokensNonempty | assembler.py:143-168 | the empty-operand, empty-second-operand and empty-jump checks can never fire |
| GrammarProperties.ConstructFollowedBySpace | assembler.py:188-189 | every accepted non-comment construct ends just past a whitespace character |
| GrammarProperties.NoSpaceAfterFails | assembler.py:188-189 | a non-comment construct with no whitespace after its start fails, so an instruction that ends the text is rejected |
| GrammarProperties.UnspacedStepFails | assembler.py:76-189 | with no whitespace anywhere, the first step fails whatever the entries and table so far, unless the text starts with `/` |
| GrammarProperties.UnspacedProgramFails | assembler.py:72-190 | a nonempty text without whitespace that does not start with `/` is rejected |
| CLineProperties.TokenAt | assembler.py:126-127 | a symbol loop that meets a non-symbol character at j reads exactly the characters before j, and leaves the cursor past j with that character in `n` |
| CLineProperties.HeadToken | assembler.py:115-127 | a first character other than `!` and `-` starts comp_part_a, which runs to the first non-symbol character; dest and operator stay empty |
| CLineProperties.HeadUnaryToken | assembler.py:119-127 | a first `!` or `-` becomes the operator, and the token after it is comp_part_a |
| CLineProperties.AssignToken | assembler.py:128-145 | `=` with no operator yet: the token read so far becomes dest, and the token after `=` is the new comp_part_a |
| CLineProperties.AssignUnaryToken | assembler.py:128-145 | `=` followed by `!` or `-`: dest as above, the operator set, and the token after it is comp_part_a |
| CLineProperties.BinaryToken | assembler.py:146-158 | a binary operator (`+`, `-`, `&` or the bitwise or) with no operator yet sets the operator, and the token after it is comp_part_b |
| CLineProperties.JumpToken | assembler.py:159-168 | after `;` the token read is the jump |
| CLineProperties.LineAt | assembler.py:115-168 | a line laid out at given positions (optional dest and `=`, optional unary operator, operand, optional binary operator and operand, optional `;` and jump, whitespace) reads back as the slices between those positions, with the cursor past the whitespace |
| CLineProperties.ComputeLine | assembler.py:115-168 | a well-formed line `dest=comp;jump` with whitespace after it reads back as exactly its parts. Dest and jump are optional; comp is `x`, `!x`, `-x` or `x op y`. The cursor ends past the whitespace |
| CLineProperties.ComputeLineEntry | assembler.py:115-172 | on such a line the branch appends exactly the raw encoding of `CInstruction(dest, (x, (op, y) or None), jump)` and leaves the table unchanged, or re-raises the encoder's message at the cursor |
| CLineProperties.ConstructLine | assembler.py:115-189 | when the first character is one the branch accepts, the construct with its whitespace check advances past the whitespace with that entry appended and the table unchanged, or fails with the encoder's message |
| Pipeline.ResolvedItem | assembler.py:192-195 | definition: a ready instruction is kept; a placeholder becomes the A-instruction of `Resolution` |
| Pipeline.Joined | assembler.py:200 | definition: the words concatenated in order, or the first encoding error |
| Pipeline.Assembled | assembler.py:197-200 | definition: preassemble, resolve every entry from the returned table and counter 15, then join |
| Pipeline.ResolvedItems | assembler.py:199 | the comprehension yields one instruction per entry |
| Pipeline.JoinedPrefixFails | assembler.py:200 | once a prefix fails to encode, the whole join fails with that first error |
| Pipeline.ResolveIfNamed | assembler.py:192-195 | a ready instruction is returned as is; a placeholder becomes `AInstruction(resolve(name))` on the live namespace |
| Pipeline.ResolveAll | assembler.py:199 | resolves the entries in list order and leaves the namespace as `ResolvedItems` says |
| Pipeline.JoinAll | assembler.py:200 | concatenates the words, or reports the first encoding error |
| Pipeline.Assemble | assembler.py:197-200 | equals `Assembled`: preassemble, then resolve, then join |
| PipelineProperties.DefaultNamesNonnegative | assembler.py:6-30 | no predefined address is negative |
| PipelineProperties.PreassembledShape | assembler.py:72-190 | every raw entry of a successful scan is one 2-byte word, and no table address is negative |
| PipelineProperties.ResolvedShape | assembler.py:192-199 | resolution copies raw entries and turns each placeholder into a nonnegative address instruction |
| PipelineProperties.JoinedLayout | assembler.py:200 | a successful join has 2 bytes per instruction, word i at bytes 2i..2i+1 |
| PipelineProperties.JoinedFailure | assembler.py:200 | a failed join names an instruction that fails with that error, with every earlier one encoding |
| PipelineProperties.JoinedAllOk | assembler.py:200 | a successful join means every instruction encodes |
| PipelineProperties.ItemsLayout | assembler.py:197-200 | for a preassembled list, raw words are copied and placeholders become the word of their address in 0..32767 |
| PipelineProperties.AssembledLayout | assembler.py:197-200 | assemble output has exactly 2 bytes per entry, in program order: raw entries copied unchanged, named ones encoded from their resolved address |
| PipelineProperties.AssembledOnlyTooBig | assembler.py:197-200 | the only encoding error assemble can report is "too big" |
| PipelineProperties.ResolvedItemsSplit | assembler.py:199 | resolving a concatenation is resolving the first part, then the second from the state it left |
| PipelineProperties.BoundNameEverywhere | assembler.py:192-199 | a name bound to nonzero before resolution (a label) resolves to that address at every use, forward and backward |
| PipelineProperties.ResolvedCounter | assembler.py:40-42 | resolution never lowers the counter |
| PipelineProperties.SameNameSameAddress | assembler.py:37-42 | two uses of the same name in the list resolve to the same address |
| PipelineProperties.FreshNames | assembler.py:37-42 | `Fresh` lists, once each, exactly the names of placeholders not bound to a nonzero address |
| PipelineProperties.FreshPrefix | assembler.py:199 | the names allocated for a prefix of the list are a prefix of those allocated for the whole |
| PipelineProperties.FreshFirstUse | assembler.py:37-42 | the first use of an unbound name is the next name allocated after those of the entries before it |
| PipelineProperties.FreshAddresses | assembler.py:37-42 | from a counter of at least 0, the k-th allocated name gets counter + 1 + k, the counter ends at counter + the number of allocated names, every other binding is kept, and every placeholder becomes the final nonzero address of its name |
| PipelineProperties.VariablesFromSixteen | assembler.py:35-42 | for any program, on the table the scan returns and counter 15: the k-th variable in order of first use gets 16 + k, every other name keeps its binding, each placeholder becomes its name's address |
| PipelineProperties.VariableFirstUse | assembler.py:35-42 | in any program, the first use of a variable at entry i gets 16 plus the number of distinct variables used before i |
| Instructions.DestCode | projects/06/instructions.py:26-35 | an accepted dest has a 3-bit code; the table is stated by `EncoderProperties.DestTable` |
| Instructions.JumpCode | projects/06/instructions.py:36-45 | an accepted jump has a 3-bit code; the table is stated by `EncoderProperties.JumpTable` |
| Instructions.CompCode | projects/06/instructions.py:50-122 | an accepted computation has a 6-bit code; the table is stated by `EncoderProperties.CompForms` |
| Instructions.UnaryCode | projects/06/instructions.py:50-67 | the first `match`: an accepted unary form has a 6-bit code; `EncoderProperties.CompForms` lists the forms |
| Instructions.NullaryCode | projects/06/instructions.py:68-81 | the second `match`: an accepted operand on its own has a 6-bit code; `EncoderProperties.CompForms` lists the forms |
| Instructions.BinaryCode | projects/06/instructions.py:82-122 | the third `match`: an accepted binary form has a 6-bit code; `EncoderProperties.CompForms` lists the forms |
| Instructions.Pack | projects/06/instructions.py:131 | definition: `0xE000 + a*0x1000 + c*0x40 + d*8 + j`; `Instructions.PackIsBitOr` proves it equals the source's or of the shifted fields |
| Instructions.BitOr | projects/06/instructions.py:131 | definition: Python's bitwise or on naturals, bit by bit; `Instructions.BitOrDisjoint` and `Instructions.PackIsBitOr` state it |
| Instructions.EncodeError.Message | projects/06/instructions.py:122-142 | definition: the exact message each encoder error raises |
| Instructions.ABit | projects/06/instructions.py:48 | definition: 1 when either operand is "M"; stated on the word by `EncoderProperties.ABitMeansMemory` |
| Instructions.Word | projects/06/instructions.py:132 | definition: `to_bytes(2)`, high byte first; read back by `EncoderProperties.WordValue` |
| Instructions.ToBytes | projects/06/instructions.py:47-143 | definition of `to_bytes` for the three kinds; stated by the `AInstructionEncoding`, `CInstruction*` lemmas below |
| Instructions.ToRaw | projects/06/instructions.py:12-19 | definition of `to_raw`; stated by `EncoderProperties.ToRawKeepsBytes` |
| Instructions.BitOrDisjoint | projects/06/instructions.py:131 | or-ing a number below 2^k into a multiple of 2^k adds it |
| Instructions.PackIsBitOr | projects/06/instructions.py:131 | the or of `0xE000`, `a<<12`, `c<<6`, `d<<3` and `j` equals their sum |
| EncoderProperties.WordValue | projects/06/instructions.py:132 | `to_bytes(2)` gives two bytes, most significant first, that read back as the number |
| EncoderProperties.FieldsOfPack | projects/06/instructions.py:131-132 | a, c, d, j are recovered as bits 12, 6-11, 3-5 and 0-2, and the word lies in 0xE000..0xFFFF |
| EncoderProperties.PackInjective | projects/06/instructions.py:131 | different fields give different words |
| EncoderProperties.AInstructionEncoding | projects/06/instructions.py:138-143 | encodes iff 0..32767, as two big-endian bytes of the value with the top bit clear; above fails too big, below too small |
| EncoderProperties.CInstructionAccepted | projects/06/instructions.py:47-130 | a C-instruction encodes iff its comp, dest and jump are all in their tables |
| EncoderProperties.CInstructionEncoding | projects/06/instructions.py:131-132 | the word is `0xE000 + a*0x1000 + c*0x40 + d*8 + j`, in 0xE000..0xFFFF, with each field recoverable |
| EncoderProperties.CInstructionErrorOrder | projects/06/instructions.py:50-130 | unknown comp is reported before unknown dest, and that before unknown jump, each exactly in its case |
| EncoderProperties.CWordOf | projects/06/instructions.py:123-132 | table codes c, d, j give the word of `0xE000 + a*0x1000 + c*0x40 + d*8 + j` |
| EncoderProperties.DEqualsDExample | projects/06/instructions.py:74-75 | `D=D` encodes to 0xE310 |
| EncoderProperties.ABitMeansMemory | projects/06/instructions.py:48 | bit 12 of the word is set iff an operand is "M" |
| EncoderProperties.TwinSharesCode | projects/06/instructions.py:56-59 | the A-form and the M-form of a computation share one 6-bit code |
| EncoderProperties.CompForms | projects/06/instructions.py:50-122 | a computation is accepted iff it is one of the listed forms |
| EncoderProperties.FormsDistinct | projects/06/instructions.py:50-122 | the listed forms are pairwise different |
| EncoderProperties.CompFormsCounted | projects/06/instructions.py:50-122 | 5 forms without operator, 7 unary and 16 binary: 28 in all |
| EncoderProperties.CompRejectsOperandOrder | projects/06/instructions.py:121-122 | `A+D` and `1+D` are unknown computations |
| EncoderProperties.DestTable | projects/06/instructions.py:26-35 | dest codes d in 0..7 are exactly the letters A, D, M of d's bits in that order; `MD` and `AMD` are rejected |
| EncoderProperties.JumpTable | projects/06/instructions.py:36-45 | each jump code's bits select exactly the outputs its mnemonic names, and no two mnemonics share one |
| EncoderProperties.ToRawKeepsBytes | projects/06/instructions.py:12-19 | `to_raw` fails iff `to_bytes` fails, with the same error; otherwise the raw instruction's bytes are the original's |

The rows marked "definition" name the functions the methods and lemmas are stated
against; their meaning is carried by the lemmas named in them. The predefined table
`_default_names` (assembler.py:6-30) is the constant `Names.DefaultNames`, whose contents
`NamesProperties.DefaultNamesContents` states.

## Left out

- The `__main__` demonstration block and `assembled_to_hack` are not modelled: the first only prints, the second formats output for display.
- Chars.IsDigit: `str.isnumeric` and `int` are modelled on the ASCII digits only; other Unicode numeric characters are not modelled. Python's limit on the digits `int` converts (`sys.set_int_max_str_digits`, 4300 by default) is not modelled either. Past it, `int(dest)` at assembler.py:102 raises a `ValueError` that no `try` catches. The model gives such a literal the range error instead.
- Python's exception objects are not modelled: the chained cause and the iterator object in the error arguments are replaced by a message and the cursor index.
- The `ABC` and `dataclass` scaffolding becomes a closed `Instruction` datatype.
- Cursor.Cursor.GoBack is modelled, but the parser never calls it: the three branches that would call it are unreachable (`GrammarProperties.TokensNonempty`).
- What the computation codes compute on the ALU is not modelled; only the table is.
- Assembling the same text twice gives the same result because `Pipeline.Assembled` is a function; no separate lemma states it.
- GrammarProperties.LabelBinds: label addresses are stated one construct at a time; no lemma follows a binding through the rest of the scan to the returned table (a later label of the same name replaces it, as the step lemma states).
