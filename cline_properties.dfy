/** What the C-instruction branch of `preassemble` (assembler.py:115-172) reads: a line
    `dest=comp;jump`, written out from its parts and followed by whitespace, is read back
    into exactly those parts and appended as their encoding. One lemma per scanning phase,
    then the whole line. */
module CLineProperties {
  import opened Wrappers
  import opened Chars
  import opened Instructions
  import opened Grammar
  import GrammarProperties

  /** Every character of s[i..j] is a symbol character. */
  predicate SymbolsIn(s: string, i: nat, j: nat)
    requires i <= j <= |s|
    decreases j - i
  {
    i == j || (IsSymbolChar(s[i]) && SymbolsIn(s, i + 1, j))
  }

  /** A symbol run from i that meets a non-symbol character at j ends there. */
  lemma {:induction false} SymbolRunEnd(s: string, i: nat, j: nat)
    requires i <= j < |s| && SymbolsIn(s, i, j) && !IsSymbolChar(s[j])
    ensures RunEnd(s, i, Symbol) == j
    decreases j - i
  {
    if i < j {
      SymbolRunEnd(s, i + 1, j);
    }
  }

  /** A symbol loop started at i that meets a non-symbol character at j reads s[i..j] and
      leaves the cursor past s[j], with s[j] in `n`. */
  lemma TokenAt(s: string, i: nat, j: nat, c: char)
    requires i <= j < |s| && SymbolsIn(s, i, j) && !IsSymbolChar(s[j])
    ensures Extend(s, Lex(i, c), Symbol) == Scanned(s[i..j], Lex(j + 1, s[j]))
  {
    SymbolRunEnd(s, i, j);
    SymbolRunEnd(s, j, j);
    ExtendStopsAt(s, Lex(i, c), j, Symbol);
  }

  /** The head without an operator: the token from the character at p - 1 up to the stopper
      at j becomes `comp_part_a`. */
  lemma HeadToken(s: string, p: nat, j: nat)
    requires 0 < p <= j < |s| && s[p - 1] != '!' && s[p - 1] != '-'
    requires SymbolsIn(s, p, j) && !IsSymbolChar(s[j])
    ensures CHead(s, p, s[p - 1]) == Ok(CParts(Lex(j + 1, s[j]), "", s[p - 1..j], "", "", ""))
  {
    TokenAt(s, p, j, s[p - 1]);
    GrammarProperties.ConsSlice(s, p - 1, j);
  }

  /** The head `!x` or `-x`: the operator at p - 1, then the operand s[p..j]. */
  lemma HeadUnaryToken(s: string, p: nat, j: nat)
    requires 0 < p < j < |s| && (s[p - 1] == '!' || s[p - 1] == '-')
    requires SymbolsIn(s, p + 1, j) && !IsSymbolChar(s[j])
    ensures CHead(s, p, s[p - 1]) == Ok(CParts(Lex(j + 1, s[j]), "", s[p..j], [s[p - 1]], "", ""))
  {
    TokenAt(s, p + 1, j, s[p - 1]);
    GrammarProperties.ConsSlice(s, p, j);
  }

  /** After `=`: the head read so far becomes dest, and the operand s[p..j] is read anew. */
  lemma AssignToken(s: string, c: CParts, j: nat)
    requires c.lx.n == '=' && c.op == "" && c.lx.idx < j < |s|
    requires s[c.lx.idx] != '!' && s[c.lx.idx] != '-'
    requires SymbolsIn(s, c.lx.idx + 1, j) && !IsSymbolChar(s[j])
    ensures CAssign(s, c) == Ok(c.(lx := Lex(j + 1, s[j]), dest := c.compA, compA := s[c.lx.idx..j]))
  {
    var p := c.lx.idx;
    TokenAt(s, p + 1, j, s[p]);
    GrammarProperties.ConsSlice(s, p, j);
  }

  /** After `=`, a unary operator and its operand s[p + 1..j]. */
  lemma AssignUnaryToken(s: string, c: CParts, j: nat)
    requires c.lx.n == '=' && c.op == "" && c.lx.idx + 1 < j < |s|
    requires s[c.lx.idx] == '!' || s[c.lx.idx] == '-'
    requires SymbolsIn(s, c.lx.idx + 2, j) && !IsSymbolChar(s[j])
    ensures CAssign(s, c) ==
      Ok(c.(lx := Lex(j + 1, s[j]), dest := c.compA, compA := s[c.lx.idx + 1..j], op := [s[c.lx.idx]]))
  {
    var p := c.lx.idx;
    TokenAt(s, p + 2, j, s[p + 1]);
    GrammarProperties.ConsSlice(s, p + 1, j);
  }

  /** A binary operator in `n`, and the second operand s[p..j]. */
  lemma BinaryToken(s: string, c: CParts, j: nat)
    requires (c.lx.n == '+' || c.lx.n == '-' || c.lx.n == '&' || c.lx.n == '|') && c.op == ""
    requires c.lx.idx < j < |s| && SymbolsIn(s, c.lx.idx + 1, j) && !IsSymbolChar(s[j])
    ensures CBinary(s, c) == Ok(c.(lx := Lex(j + 1, s[j]), op := [c.lx.n], compB := s[c.lx.idx..j]))
  {
    var p := c.lx.idx;
    TokenAt(s, p + 1, j, s[p]);
    GrammarProperties.ConsSlice(s, p, j);
  }

  /** After `;`, the jump mnemonic s[p..j]. */
  lemma JumpToken(s: string, c: CParts, j: nat)
    requires c.lx.n == ';' && c.lx.idx < j < |s|
    requires SymbolsIn(s, c.lx.idx + 1, j) && !IsSymbolChar(s[j])
    ensures CJump(s, c) == Ok(c.(lx := Lex(j + 1, s[j]), jump := s[c.lx.idx..j]))
  {
    var p := c.lx.idx;
    TokenAt(s, p + 1, j, s[p]);
    GrammarProperties.ConsSlice(s, p, j);
  }

  /** The four phases compose: given what each phase returns, the whole read returns the last. */
  lemma PartsChain(s: string, p: nat, n: char, c1: CParts, c2: CParts, c3: CParts, r: Result<CParts, ParseError>)
    requires p <= |s|
    requires CHead(s, p, n) == Ok(c1) && CAssign(s, c1) == Ok(c2) && CBinary(s, c2) == Ok(c3) && CJump(s, c3) == r
    ensures ComputeParts(s, p, n) == r
  {
  }

  /** Positions of the front of a line from a: dest in s[a..f - 1] when f > a (with `=` at
      f - 1), a unary operator in s[f..m] when m > f, the operand s[m..q] and its stopper s[q]. */
  predicate FrontLayout(s: string, a: nat, f: nat, m: nat, q: nat) {
    a <= f <= m < q < |s| && (f == a || (a + 1 < f && SymbolsIn(s, a, f - 1) && s[f - 1] == '=')) &&
    (m == f || (m == f + 1 && (s[f] == '!' || s[f] == '-'))) &&
    SymbolsIn(s, m, q) && !IsSymbolChar(s[q]) && s[q] != '='
  }

  /** The head and `=` phases read the front of a line into its dest, operand and unary
      operator. */
  lemma FrontAt(s: string, a: nat, f: nat, m: nat, q: nat) returns (c1: CParts)
    requires FrontLayout(s, a, f, m, q)
    ensures CHead(s, a + 1, s[a]) == Ok(c1)
    ensures CAssign(s, c1) == Ok(CParts(Lex(q + 1, s[q]), if f == a then "" else s[a..f - 1], s[m..q],
                                        if m == f then "" else s[f..m], "", ""))
  {
    if f == a && m == f {
      c1 := PlainAt(s, a, q);
    } else if f == a {
      c1 := UnaryAt(s, a, q);
    } else if m == f {
      c1 := DestPlainAt(s, a, f, q);
    } else {
      c1 := DestUnaryAt(s, a, f, q);
    }
  }

  /** `x`: the head reads the operand, and the `=` phase passes it through. */
  lemma PlainAt(s: string, a: nat, q: nat) returns (c1: CParts)
    requires a < q < |s| && SymbolsIn(s, a, q) && !IsSymbolChar(s[q]) && s[q] != '='
    ensures CHead(s, a + 1, s[a]) == Ok(c1)
    ensures CAssign(s, c1) == Ok(CParts(Lex(q + 1, s[q]), "", s[a..q], "", "", ""))
  {
    HeadToken(s, a + 1, q);
    c1 := CParts(Lex(q + 1, s[q]), "", s[a..q], "", "", "");
  }

  /** `!x` or `-x`. */
  lemma UnaryAt(s: string, a: nat, q: nat) returns (c1: CParts)
    requires a + 1 < q < |s| && (s[a] == '!' || s[a] == '-') && SymbolsIn(s, a + 1, q)
    requires !IsSymbolChar(s[q]) && s[q] != '='
    ensures CHead(s, a + 1, s[a]) == Ok(c1)
    ensures CAssign(s, c1) == Ok(CParts(Lex(q + 1, s[q]), "", s[a + 1..q], s[a..a + 1], "", ""))
  {
    HeadUnaryToken(s, a + 1, q);
    c1 := CParts(Lex(q + 1, s[q]), "", s[a + 1..q], [s[a]], "", "");
    assert s[a..a + 1] == [s[a]];
  }

  /** `dest=x`: the head reads dest, and the `=` phase moves it over and reads x. */
  lemma DestPlainAt(s: string, a: nat, f: nat, q: nat) returns (c1: CParts)
    requires a + 1 < f < q < |s| && SymbolsIn(s, a, f - 1) && s[f - 1] == '=' && SymbolsIn(s, f, q)
    requires !IsSymbolChar(s[q])
    ensures CHead(s, a + 1, s[a]) == Ok(c1)
    ensures CAssign(s, c1) == Ok(CParts(Lex(q + 1, s[q]), s[a..f - 1], s[f..q], "", "", ""))
  {
    HeadToken(s, a + 1, f - 1);
    c1 := CParts(Lex(f, '='), "", s[a..f - 1], "", "", "");
    AssignToken(s, c1, q);
  }

  /** `dest=!x` or `dest=-x`. */
  lemma DestUnaryAt(s: string, a: nat, f: nat, q: nat) returns (c1: CParts)
    requires a + 1 < f && f + 1 < q < |s| && SymbolsIn(s, a, f - 1) && s[f - 1] == '='
    requires (s[f] == '!' || s[f] == '-') && SymbolsIn(s, f + 1, q) && !IsSymbolChar(s[q])
    ensures CHead(s, a + 1, s[a]) == Ok(c1)
    ensures CAssign(s, c1) == Ok(CParts(Lex(q + 1, s[q]), s[a..f - 1], s[f + 1..q], s[f..f + 1], "", ""))
  {
    HeadToken(s, a + 1, f - 1);
    c1 := CParts(Lex(f, '='), "", s[a..f - 1], "", "", "");
    AssignUnaryToken(s, c1, q);
    assert s[f..f + 1] == [s[f]];
  }

  /** Positions of the back of a line after the stopper at q: a binary operator at q and the
      second operand s[q + 1..r] when r > q, a `;` at r and the jump s[r + 1..t] when t > r,
      and the whitespace at t. */
  predicate BackLayout(s: string, q: nat, r: nat, t: nat) {
    q <= r <= t < |s| && IsSpace(s[t]) &&
    (r == q || (q + 1 < r && (s[q] == '+' || s[q] == '-' || s[q] == '&' || s[q] == '|') &&
                SymbolsIn(s, q + 1, r) && !IsSymbolChar(s[r]))) &&
    (t == r || (r + 1 < t && s[r] == ';' && SymbolsIn(s, r + 1, t)))
  }

  /** The binary and jump phases read the back of a line. */
  lemma BackAt(s: string, c2: CParts, q: nat, r: nat, t: nat) returns (c3: CParts)
    requires BackLayout(s, q, r, t) && c2.lx == Lex(q + 1, s[q]) && c2.compB == "" && c2.jump == ""
    requires r > q ==> c2.op == ""
    ensures CBinary(s, c2) == Ok(c3)
    ensures CJump(s, c3) == Ok(c2.(lx := Lex(t + 1, s[t]), op := if r == q then c2.op else s[q..q + 1],
                                   compB := if r == q then "" else s[q + 1..r], jump := if t == r then "" else s[r + 1..t]))
  {
    c3 := BinaryAt(s, c2, q, r, t);
    JumpAt(s, c3, r, t);
  }

  /** The binary phase: an operator at q and the operand s[q + 1..r], or nothing when r == q. */
  lemma BinaryAt(s: string, c2: CParts, q: nat, r: nat, t: nat) returns (c3: CParts)
    requires BackLayout(s, q, r, t) && c2.lx == Lex(q + 1, s[q])
    requires r > q ==> c2.op == ""
    ensures CBinary(s, c2) == Ok(c3)
    ensures c3 == c2.(lx := Lex(r + 1, s[r]), op := if r == q then c2.op else s[q..q + 1],
                      compB := if r == q then c2.compB else s[q + 1..r])
  {
    if r == q {
      c3 := c2;
      assert !(s[q] == '+' || s[q] == '-' || s[q] == '&' || s[q] == '|');
    } else {
      BinaryToken(s, c2, r);
      c3 := c2.(lx := Lex(r + 1, s[r]), op := [s[q]], compB := s[q + 1..r]);
      assert s[q..q + 1] == [s[q]];
    }
  }

  /** The jump phase: `;` at r and the mnemonic s[r + 1..t], or nothing when t == r. */
  lemma JumpAt(s: string, c3: CParts, r: nat, t: nat)
    requires r <= t < |s| && IsSpace(s[t]) && (t == r || (r + 1 < t && s[r] == ';' && SymbolsIn(s, r + 1, t)))
    requires c3.lx == Lex(r + 1, s[r]) && c3.jump == ""
    ensures CJump(s, c3) == Ok(c3.(lx := Lex(t + 1, s[t]), jump := if t == r then "" else s[r + 1..t]))
  {
    if t == r {
      assert s[r] != ';';
    } else {
      JumpToken(s, c3, t);
    }
  }

  /** Reading a line laid out at these positions gives back the slices between them. */
  lemma LineAt(s: string, a: nat, f: nat, m: nat, q: nat, r: nat, t: nat)
    requires FrontLayout(s, a, f, m, q) && BackLayout(s, q, r, t) && (r > q ==> m == f)
    ensures ComputeParts(s, a + 1, s[a]) ==
      Ok(CParts(Lex(t + 1, s[t]), if f == a then "" else s[a..f - 1], s[m..q],
                if r > q then s[q..q + 1] else if m == f then "" else s[f..m],
                if r == q then "" else s[q + 1..r], if t == r then "" else s[r + 1..t]))
  {
    var c1 := FrontAt(s, a, f, m, q);
    var c2 := CParts(Lex(q + 1, s[q]), if f == a then "" else s[a..f - 1], s[m..q], if m == f then "" else s[f..m], "", "");
    var c3 := BackAt(s, c2, q, r, t);
    PartsChain(s, a + 1, s[a], c1, c2, c3, CJump(s, c3));
  }

  /** A nonempty run of symbol characters. */
  predicate Token(t: string) {
    |t| > 0 && SymbolsIn(t, 0, |t|)
  }

  /** The computation as written: `x`, `!x` or `-x`, or `x op y`. */
  function CompText(x: string, op: string, y: string): string {
    if y == "" then op + x else x + op + y
  }

  function DestText(dest: string): string {
    if dest == "" then "" else dest + "="
  }

  function JumpText(jump: string): string {
    if jump == "" then "" else ";" + jump
  }

  /** The line `dest=comp;jump`, with `dest=` and `;jump` left out when empty. */
  function LineText(dest: string, x: string, op: string, y: string, jump: string): string {
    DestText(dest) + CompText(x, op, y) + JumpText(jump)
  }

  /** The parts of a line: symbol tokens, with no operator, a unary `!` or `-` (and no second
      operand), or a binary `+ - & |` with a second operand. */
  predicate WellFormed(dest: string, x: string, op: string, y: string, jump: string) {
    (dest == "" || Token(dest)) && Token(x) && (jump == "" || Token(jump)) &&
    ((op == "" && y == "") || ((op == "!" || op == "-") && y == "") ||
     ((op == "+" || op == "-" || op == "&" || op == "|") && Token(y)))
  }

  /** The two parts of a slice that holds a concatenation. */
  lemma SliceSplit(s: string, i: nat, u: string, v: string)
    requires i + |u| + |v| <= |s| && s[i..i + |u| + |v|] == u + v
    ensures s[i..i + |u|] == u && s[i + |u|..i + |u| + |v|] == v
  {
    assert s[i..i + |u|] == s[i..i + |u| + |v|][..|u|];
    assert s[i + |u|..i + |u| + |v|] == s[i..i + |u| + |v|][|u|..];
  }

  /** A token held in a slice: its characters are symbol characters. */
  lemma TokenIn(s: string, i: nat, t: string)
    requires i + |t| <= |s| && s[i..i + |t|] == t && Token(t)
    ensures SymbolsIn(s, i, i + |t|) && s[i] == t[0]
  {
    SymbolsShift(s, i, t, 0);
  }

  /** Symbol characters from index k of a string held in s from index i. */
  lemma {:induction false} SymbolsShift(s: string, i: nat, t: string, k: nat)
    requires i + |t| <= |s| && s[i..i + |t|] == t && k <= |t| && SymbolsIn(t, k, |t|)
    ensures SymbolsIn(s, i + k, i + |t|) && (k < |t| ==> s[i + k] == t[k])
    decreases |t| - k
  {
    if k < |t| {
      assert s[i + k] == s[i..i + |t|][k];
      SymbolsShift(s, i, t, k + 1);
    }
  }

  /** A one-character slice. */
  lemma CharIn(s: string, i: nat, t: string)
    requires |t| == 1 && i + 1 <= |s| && s[i..i + 1] == t
    ensures s[i] == t[0]
  {
    assert s[i] == s[i..i + 1][0];
  }

  /** The line split at the end of the first operand. */
  lemma LineSegments(dest: string, x: string, op: string, y: string, jump: string, opU: string, opB: string)
    requires opU == (if y == "" then op else "") && opB == (if y == "" then "" else op)
    ensures LineText(dest, x, op, y, jump) == DestText(dest) + opU + x + (opB + y) + JumpText(jump)
  {
    if y == "" {
      assert CompText(x, op, y) == opU + x + (opB + y);
    } else {
      assert CompText(x, op, y) == opU + x + (opB + y);
    }
  }

  /** What ends the first operand: a binary operator, `;` or the closing whitespace. */
  lemma StopperAfterOperand(s: string, q: nat, r: nat, t: nat, v: string, y: string, j: string)
    requires r == q + |v| + |y| && t == r + |j| && t < |s| && IsSpace(s[t])
    requires s[q..r] == v + y && s[r..t] == j
    requires v != "" ==> v[0] == '+' || v[0] == '-' || v[0] == '&' || v[0] == '|'
    requires v == "" ==> y == ""
    requires j != "" ==> j[0] == ';'
    ensures !IsSymbolChar(s[q]) && s[q] != '='
  {
    if v != "" {
      assert s[q] == s[q..r][0];
    } else if j != "" {
      assert s[q] == s[r..t][0];
    }
  }

  /** Where the parts of a well-formed line lie once it is written out from index a. */
  lemma LineLayout(s: string, a: nat, dest: string, x: string, op: string, y: string, jump: string, t: nat)
    returns (f: nat, m: nat, q: nat, r: nat)
    requires WellFormed(dest, x, op, y, jump) && t == a + |LineText(dest, x, op, y, jump)|
    requires t < |s| && s[a..t] == LineText(dest, x, op, y, jump) && IsSpace(s[t])
    ensures FrontLayout(s, a, f, m, q) && BackLayout(s, q, r, t) && (r > q ==> m == f) &&
      dest == (if f == a then "" else s[a..f - 1]) && x == s[m..q] &&
      op == (if r > q then s[q..q + 1] else if m == f then "" else s[f..m]) &&
      y == (if r == q then "" else s[q + 1..r]) && jump == (if t == r then "" else s[r + 1..t])
  {
    var u, v := if y == "" then op else "", if y == "" then "" else op;
    f, m, q, r := LineSlices(s, a, dest, x, op, y, jump, t, u, v);
    StopperAfterOperand(s, q, r, t, v, y, JumpText(jump));
    FrontFrom(s, a, f, m, q, dest, u, x);
    BackFrom(s, q, r, t, v, y, jump);
  }

  /** The five pieces of a line, `dest=`, the unary operator u, the operand x, the binary
      operator v with the operand y, and `;jump`, as slices of s. */
  lemma LineSlices(s: string, a: nat, dest: string, x: string, op: string, y: string, jump: string, t: nat,
                   u: string, v: string)
    returns (f: nat, m: nat, q: nat, r: nat)
    requires t == a + |LineText(dest, x, op, y, jump)| && t <= |s| && s[a..t] == LineText(dest, x, op, y, jump)
    requires u == (if y == "" then op else "") && v == (if y == "" then "" else op)
    ensures f == a + |DestText(dest)| && m == f + |u| && q == m + |x| && r == q + |v| + |y| &&
      t == r + |JumpText(jump)| && s[a..f] == DestText(dest) && s[f..m] == u && s[m..q] == x &&
      s[q..r] == v + y && s[r..t] == JumpText(jump)
  {
    LineSegments(dest, x, op, y, jump, u, v);
    f, m, q, r := FiveSlices(s, a, t, DestText(dest), u, x, v + y, JumpText(jump));
  }

  /** A slice that holds five strings in a row, cut at the four positions between them. */
  lemma FiveSlices(s: string, a: nat, t: nat, d: string, u: string, x: string, b: string, j: string)
    returns (f: nat, m: nat, q: nat, r: nat)
    requires t == a + |d + u + x + b + j| && t <= |s| && s[a..t] == d + u + x + b + j
    ensures f == a + |d| && m == f + |u| && q == m + |x| && r == q + |b| && t == r + |j|
    ensures s[a..f] == d && s[f..m] == u && s[m..q] == x && s[q..r] == b && s[r..t] == j
  {
    SliceSplit(s, a, d + u + x + b, j);
    SliceSplit(s, a, d + u + x, b);
    SliceSplit(s, a, d + u, x);
    SliceSplit(s, a, d, u);
    f, m := a + |d|, a + |d| + |u|;
    q := m + |x|;
    r := q + |b|;
  }

  /** The front of a line, `dest=` and the unary operator u and the operand x, at positions. */
  lemma FrontFrom(s: string, a: nat, f: nat, m: nat, q: nat, dest: string, u: string, x: string)
    requires (dest == "" || Token(dest)) && Token(x) && (u == "" || u == "!" || u == "-")
    requires f == a + |DestText(dest)| && m == f + |u| && q == m + |x| && q < |s|
    requires s[a..f] == DestText(dest) && s[f..m] == u && s[m..q] == x
    requires !IsSymbolChar(s[q]) && s[q] != '='
    ensures FrontLayout(s, a, f, m, q) && dest == (if f == a then "" else s[a..f - 1]) &&
      u == (if m == f then "" else s[f..m])
  {
    TokenIn(s, m, x);
    if dest != "" {
      SliceSplit(s, a, dest, "=");
      CharIn(s, f - 1, "=");
      TokenIn(s, a, dest);
    }
    if u != "" {
      CharIn(s, f, u);
    }
  }

  /** The back of a line, the binary operator v and the operand y and `;jump`, at positions. */
  lemma BackFrom(s: string, q: nat, r: nat, t: nat, v: string, y: string, jump: string)
    requires (y == "" && v == "") || ((v == "+" || v == "-" || v == "&" || v == "|") && Token(y))
    requires jump == "" || Token(jump)
    requires r == q + |v| + |y| && t == r + |JumpText(jump)| && t < |s| && IsSpace(s[t])
    requires s[q..r] == v + y && s[r..t] == JumpText(jump)
    ensures BackLayout(s, q, r, t) && v == (if r == q then "" else s[q..q + 1]) &&
      y == (if r == q then "" else s[q + 1..r]) && jump == (if t == r then "" else s[r + 1..t])
  {
    BinaryFrom(s, q, r, v, y);
    JumpFrom(s, r, t, jump);
  }

  /** The binary operator v and the operand y at positions q to r. */
  lemma BinaryFrom(s: string, q: nat, r: nat, v: string, y: string)
    requires (y == "" && v == "") || ((v == "+" || v == "-" || v == "&" || v == "|") && Token(y))
    requires r == q + |v| + |y| <= |s| && s[q..r] == v + y
    ensures r == q || (q + 1 < r && (s[q] == '+' || s[q] == '-' || s[q] == '&' || s[q] == '|') && SymbolsIn(s, q + 1, r))
    ensures v == (if r == q then "" else s[q..q + 1]) && y == (if r == q then "" else s[q + 1..r])
  {
    if y != "" {
      SliceSplit(s, q, v, y);
      CharIn(s, q, v);
      TokenIn(s, q + 1, y);
    }
  }

  /** `;jump` at positions r to t, followed by whitespace. */
  lemma JumpFrom(s: string, r: nat, t: nat, jump: string)
    requires jump == "" || Token(jump)
    requires t == r + |JumpText(jump)| && t < |s| && IsSpace(s[t]) && s[r..t] == JumpText(jump)
    ensures t == r || (r + 1 < t && s[r] == ';' && SymbolsIn(s, r + 1, t))
    ensures !IsSymbolChar(s[r]) && jump == (if t == r then "" else s[r + 1..t])
  {
    if jump != "" {
      SliceSplit(s, r, ";", jump);
      CharIn(s, r, ";");
      TokenIn(s, r + 1, jump);
    }
  }

  /** Reading a well-formed line that starts at index a and is followed by whitespace at t
      gives back its parts, with the cursor past the whitespace. */
  lemma ComputeLine(s: string, a: nat, dest: string, x: string, op: string, y: string, jump: string, t: nat)
    requires WellFormed(dest, x, op, y, jump) && t == a + |LineText(dest, x, op, y, jump)|
    requires t < |s| && s[a..t] == LineText(dest, x, op, y, jump) && IsSpace(s[t])
    ensures ComputeParts(s, a + 1, s[a]) == Ok(CParts(Lex(t + 1, s[t]), dest, x, op, y, jump))
  {
    var f, m, q, r := LineLayout(s, a, dest, x, op, y, jump, t);
    assert CParts(Lex(t + 1, s[t]), if f == a then "" else s[a..f - 1], s[m..q],
                  if r > q then s[q..q + 1] else if m == f then "" else s[f..m],
                  if r == q then "" else s[q + 1..r], if t == r then "" else s[r + 1..t]) ==
           CParts(Lex(t + 1, s[t]), dest, x, op, y, jump);
    LineAt(s, a, f, m, q, r, t);
  }

  /** The instruction a line stands for. */
  function LineInstruction(dest: string, x: string, op: string, y: string, jump: string): Instruction {
    CInstruction(dest, Comp(x, if op == "" then None else Some((op, y))), jump)
  }

  /** Encoding follows reading: once the parts are read, the C-instruction branch emits them. */
  lemma EmitChain(s: string, p: nat, n: char, items: seq<Item>, names: map<string, int>, c: CParts)
    requires p <= |s| && ComputeParts(s, p, n) == Ok(c)
    ensures Compute(s, p, n, items, names) == CEmit(c, items, names)
  {
  }

  /** Emitting the parts of an instruction appends its raw encoding, or reports the encoder's
      error at the cursor. */
  lemma EmitParts(c: CParts, ins: Instruction, items: seq<Item>, names: map<string, int>)
    requires CInstructionOf(c) == ins
    ensures CEmit(c, items, names) ==
      match ToRaw(ins)
      case Ok(raw) => Ok(Progress(c.lx, items + [Ready(raw)], names))
      case Err(e) => Err(SyntaxError(e.Message(), c.lx.idx))
  {
  }

  /** The C-instruction branch on a well-formed line followed by whitespace appends exactly
      one entry, the raw encoding of the line's instruction, and leaves the table as it was;
      an encoder error is reported at the cursor past the whitespace. */
  lemma ComputeLineEntry(s: string, a: nat, dest: string, x: string, op: string, y: string, jump: string,
                         t: nat, items: seq<Item>, names: map<string, int>)
    requires WellFormed(dest, x, op, y, jump) && t == a + |LineText(dest, x, op, y, jump)|
    requires t < |s| && s[a..t] == LineText(dest, x, op, y, jump) && IsSpace(s[t])
    ensures var ins := LineInstruction(dest, x, op, y, jump);
      Compute(s, a + 1, s[a], items, names) ==
        match ToRaw(ins)
        case Ok(raw) => Ok(Progress(Lex(t + 1, s[t]), items + [Ready(raw)], names))
        case Err(e) => Err(SyntaxError(e.Message(), t + 1))
  {
    var c := CParts(Lex(t + 1, s[t]), dest, x, op, y, jump);
    assert CInstructionOf(c) == LineInstruction(dest, x, op, y, jump);
    EmitParts(c, LineInstruction(dest, x, op, y, jump), items, names);
    ComputeLine(s, a, dest, x, op, y, jump, t);
    EmitChain(s, a + 1, s[a], items, names, c);
  }

  /** A character that starts a C-instruction sends the construct to the C-instruction branch,
      and the whitespace check follows it. */
  lemma ConstructCompute(s: string, p: nat, n: char, items: seq<Item>, names: map<string, int>)
    requires 0 < p <= |s| && (IsSymbolStart(n) || n == '-' || n == '1' || n == '0' || n == '!')
    ensures Construct(s, p, n, items, names) == Trail(Compute(s, p, n, items, names))
  {
  }

  /** The step on a well-formed line followed by whitespace at t, whose first character starts a
      C-instruction: it moves past the whitespace with the line's raw encoding appended and the
      table unchanged, or fails with the encoder's error at t + 1. */
  lemma ConstructLine(s: string, a: nat, dest: string, x: string, op: string, y: string, jump: string,
                      t: nat, items: seq<Item>, names: map<string, int>)
    requires WellFormed(dest, x, op, y, jump) && t == a + |LineText(dest, x, op, y, jump)|
    requires t < |s| && s[a..t] == LineText(dest, x, op, y, jump) && IsSpace(s[t])
    requires IsSymbolStart(s[a]) || s[a] == '-' || s[a] == '1' || s[a] == '0' || s[a] == '!'
    ensures var ins := LineInstruction(dest, x, op, y, jump);
      Construct(s, a + 1, s[a], items, names) ==
        match ToRaw(ins)
        case Ok(raw) => Advance(t + 1, items + [Ready(raw)], names)
        case Err(e) => Fail(SyntaxError(e.Message(), t + 1))
  {
    ComputeLineEntry(s, a, dest, x, op, y, jump, t, items, names);
    ConstructCompute(s, a + 1, s[a], items, names);
  }
}
