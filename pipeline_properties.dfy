/** What `assemble` promises: two bytes per list entry in program order, placeholders resolved
    in list order with labels and variables bound once, and no encoding error but "too big". */
module PipelineProperties {
  import opened Wrappers
  import opened Instructions
  import opened Names
  import opened Grammar
  import opened Pipeline
  import NamesProperties
  import Seqs

  /** An encoded entry of the list is a raw instruction of two bytes. */
  predicate WordEntry(item: Item) {
    item.Ready? ==> item.instr.RawInstruction? && |item.instr.bytes| == 2
  }

  predicate WordEntries(items: seq<Item>) {
    forall i | 0 <= i < |items| :: WordEntry(items[i])
  }

  /** No address in the table is negative. */
  predicate NonnegativeNames(names: map<string, int>) {
    forall x | x in names :: names[x] >= 0
  }

  lemma DefaultNamesNonnegative()
    ensures NonnegativeNames(DefaultNames)
  {
    NamesProperties.DefaultNamesContents();
    forall x | x in DefaultNames ensures DefaultNames[x] >= 0 {
      assert x in NamesProperties.Predefined;
      if x in NamesProperties.Registers {
        var k :| 0 <= k < 16 && NamesProperties.Registers[k] == x;
      } else if x in NamesProperties.SegmentBases {
        var k :| 0 <= k < 5 && NamesProperties.SegmentBases[k] == x;
      }
    }
  }

  /** Encoding an A- or C-instruction gives two bytes. */
  lemma ToRawWord(ins: Instruction)
    requires !ins.RawInstruction? && ToRaw(ins).Ok?
    ensures ToRaw(ins).value.RawInstruction? && |ToRaw(ins).value.bytes| == 2
  {
  }

  lemma AddressKeeps(s: string, p: nat, items: seq<Item>, names: map<string, int>)
    requires p <= |s| && WordEntries(items)
    ensures Address(s, p, items, names).Ok? ==> WordEntries(Address(s, p, items, names).value.items)
  {
    var r := Address(s, p, items, names);
    if r.Ok? {
      assert r.value.items[..|items|] == items;
      if p < |s| && Chars.IsDigit(s[p]) {
        var sc := Extend(s, Lex(p + 1, s[p]), Chars.Digit);
        ExtendInClass(s, Lex(p + 1, s[p]), Chars.Digit);
        ToRawWord(AInstruction(Chars.DecimalValue([s[p]] + sc.tok)));
      }
    }
  }

  lemma ComputeKeeps(s: string, p: nat, n: char, items: seq<Item>, names: map<string, int>)
    requires p <= |s| && WordEntries(items)
    ensures Compute(s, p, n, items, names).Ok? ==> WordEntries(Compute(s, p, n, items, names).value.items)
  {
    var c := ComputeParts(s, p, n);
    if c.Ok? && ToRaw(CInstructionOf(c.value)).Ok? {
      ToRawWord(CInstructionOf(c.value));
    }
  }

  lemma LabelKeeps(s: string, p: nat, items: seq<Item>, names: map<string, int>)
    requires p <= |s| && NonnegativeNames(names)
    ensures Label(s, p, items, names).Ok? ==> NonnegativeNames(Label(s, p, items, names).value.names)
  {
  }

  /** The state a pass leaves satisfies both invariants. */
  predicate Keeps(st: Step) {
    st.Advance? ==> WordEntries(st.items) && NonnegativeNames(st.names)
  }

  lemma ConstructKeeps(s: string, p: nat, n: char, items: seq<Item>, names: map<string, int>)
    requires 0 < p <= |s| && WordEntries(items) && NonnegativeNames(names)
    ensures Keeps(Construct(s, p, n, items, names))
  {
    var st := Construct(s, p, n, items, names);
    if n == '@' {
      AddressKeeps(s, p, items, names);
      assert st == Trail(Address(s, p, items, names));
    } else if Chars.IsSymbolStart(n) || n == '-' || n == '1' || n == '0' || n == '!' {
      ComputeKeeps(s, p, n, items, names);
      assert st == Trail(Compute(s, p, n, items, names));
    } else if n == '(' {
      LabelKeeps(s, p, items, names);
      assert st == Trail(Label(s, p, items, names));
    }
  }

  /** One pass of the outer loop keeps both invariants. */
  lemma StepKeeps(s: string, i: nat, items: seq<Item>, names: map<string, int>)
    requires i < |s| && WordEntries(items) && NonnegativeNames(names)
    ensures Keeps(StepAt(s, i, items, names))
  {
    var k := RunEnd(s, i, Chars.Space);
    if k < |s| {
      ConstructKeeps(s, k + 1, s[k], items, names);
      assert StepAt(s, i, items, names) == Construct(s, k + 1, s[k], items, names);
    } else {
      assert StepAt(s, i, items, names) == Advance(|s|, items, names);
    }
  }

  lemma {:induction false} RunKeeps(s: string, i: nat, items: seq<Item>, names: map<string, int>)
    requires i <= |s| && WordEntries(items) && NonnegativeNames(names)
    ensures Run(s, i, items, names).Done? ==>
      WordEntries(Run(s, i, items, names).items) && NonnegativeNames(Run(s, i, items, names).names)
    decreases |s| - i
  {
    if i < |s| {
      StepKeeps(s, i, items, names);
      var st := StepAt(s, i, items, names);
      if st.Advance? {
        RunKeeps(s, st.idx, st.items, st.names);
      }
    }
  }

  /** The list `preassemble` returns holds only two-byte raw words and placeholders, and its
      table only nonnegative addresses. */
  lemma PreassembledShape(asm: string)
    requires Preassembled(asm).Done?
    ensures WordEntries(Preassembled(asm).items) && NonnegativeNames(Preassembled(asm).names)
  {
    DefaultNamesNonnegative();
    RunKeeps(asm, 0, [], DefaultNames);
  }

  /** Resolution keeps raw entries as they are and turns every placeholder into an
      A-instruction with a nonnegative address; the counter never goes down. */
  lemma {:induction false} ResolvedShape(items: seq<Item>, names: map<string, int>, highest: int)
    requires NonnegativeNames(names) && highest >= 0
    ensures var (ins, names', highest') := ResolvedItems(items, names, highest);
      NonnegativeNames(names') && highest <= highest' &&
      (forall i | 0 <= i < |items| :: items[i].Ready? ==> ins[i] == items[i].instr) &&
      (forall i | 0 <= i < |items| :: items[i].Named? ==> ins[i].AInstruction? && ins[i].value >= 0)
    decreases |items|
  {
    if items != [] {
      var pre := items[..|items| - 1];
      ResolvedShape(pre, names, highest);
      var (ins1, names1, highest1) := ResolvedItems(pre, names, highest);
      var (ins, names', highest') := ResolvedItems(items, names, highest);
      assert ins == ins1 + [ResolvedItem(items[|items| - 1], names1, highest1).0];
      forall i | 0 <= i < |items| - 1
        ensures items[i].Ready? ==> ins[i] == items[i].instr
        ensures items[i].Named? ==> ins[i].AInstruction? && ins[i].value >= 0
      {
        assert items[i] == pre[i] && ins[i] == ins1[i];
      }
    }
  }

  /** The join is the words of the instructions, two bytes each, in order. */
  lemma {:induction false} JoinedLayout(instrs: seq<Instruction>, b: seq<byte>)
    requires Joined(instrs) == Ok(b)
    requires forall i | 0 <= i < |instrs| :: instrs[i].RawInstruction? ==> |instrs[i].bytes| == 2
    ensures |b| == 2 * |instrs|
    ensures forall i | 0 <= i < |instrs| :: ToBytes(instrs[i]).Ok? && b[2 * i..2 * i + 2] == ToBytes(instrs[i]).value
    decreases |instrs|
  {
    if instrs != [] {
      var pre := instrs[..|instrs| - 1];
      var b1 := Joined(pre).value;
      JoinedLayout(pre, b1);
      var w := ToBytes(instrs[|instrs| - 1]).value;
      assert |w| == 2;
      assert b == b1 + w;
      forall i | 0 <= i < |instrs|
        ensures ToBytes(instrs[i]).Ok? && b[2 * i..2 * i + 2] == ToBytes(instrs[i]).value
      {
        if i < |instrs| - 1 {
          assert instrs[i] == pre[i];
          assert b[2 * i..2 * i + 2] == b1[2 * i..2 * i + 2];
        } else {
          assert b[2 * i..2 * i + 2] == w;
        }
      }
    }
  }

  /** A failed join reports the error of the first instruction that does not encode. */
  lemma {:induction false} JoinedFailure(instrs: seq<Instruction>, e: EncodeError)
    requires Joined(instrs) == Err(e)
    ensures exists i | 0 <= i < |instrs| ::
      ToBytes(instrs[i]) == Err(e) && forall k | 0 <= k < i :: ToBytes(instrs[k]).Ok?
    decreases |instrs|
  {
    var pre := instrs[..|instrs| - 1];
    match Joined(pre)
    case Err(_) =>
      JoinedFailure(pre, e);
      var i :| 0 <= i < |pre| && ToBytes(pre[i]) == Err(e) && forall k | 0 <= k < i :: ToBytes(pre[k]).Ok?;
      assert forall k | 0 <= k <= i :: instrs[k] == pre[k];
    case Ok(b1) =>
      var i := |instrs| - 1;
      JoinedAllOk(pre, b1);
      assert forall k | 0 <= k < i :: instrs[k] == pre[k];
  }

  /** A successful join means every instruction encodes. */
  lemma {:induction false} JoinedAllOk(instrs: seq<Instruction>, b: seq<byte>)
    requires Joined(instrs) == Ok(b)
    ensures forall k | 0 <= k < |instrs| :: ToBytes(instrs[k]).Ok?
    decreases |instrs|
  {
    if instrs != [] {
      var pre := instrs[..|instrs| - 1];
      JoinedAllOk(pre, Joined(pre).value);
      assert forall k | 0 <= k < |pre| :: instrs[k] == pre[k];
    }
  }

  /** Layout of the joined words of a preassembled list in a valid shape. */
  lemma ItemsLayout(items: seq<Item>, names: map<string, int>, b: seq<byte>)
    requires WordEntries(items) && NonnegativeNames(names)
    requires Joined(ResolvedItems(items, names, FirstHighest).0) == Ok(b)
    ensures var ins := ResolvedItems(items, names, FirstHighest).0;
      |b| == 2 * |items| &&
      (forall i | 0 <= i < |items| :: items[i].Ready? ==>
        items[i].instr.RawInstruction? && b[2 * i..2 * i + 2] == items[i].instr.bytes) &&
      (forall i | 0 <= i < |items| :: items[i].Named? ==>
        ins[i].AInstruction? && 0 <= ins[i].value <= 32767 && b[2 * i..2 * i + 2] == Word(ins[i].value))
  {
    ResolvedShape(items, names, FirstHighest);
    var ins := ResolvedItems(items, names, FirstHighest).0;
    assert forall i | 0 <= i < |ins| :: ins[i].RawInstruction? ==> |ins[i].bytes| == 2 by {
      forall i | 0 <= i < |ins| && ins[i].RawInstruction? ensures |ins[i].bytes| == 2 {
        assert items[i].Ready?;
        assert WordEntry(items[i]);
      }
    }
    JoinedLayout(ins, b);
  }

  /** The output of `assemble` has exactly two bytes per list entry, in program order: raw
      entries are copied, and each placeholder becomes the big-endian word of its resolved
      address, which is at most 32767. */
  lemma AssembledLayout(asm: string, b: seq<byte>)
    requires Assembled(asm) == Ok(b)
    ensures Preassembled(asm).Done?
    ensures var items := Preassembled(asm).items;
      var ins := ResolvedItems(items, Preassembled(asm).names, FirstHighest).0;
      |b| == 2 * |items| &&
      (forall i | 0 <= i < |items| :: items[i].Ready? ==>
        items[i].instr.RawInstruction? && b[2 * i..2 * i + 2] == items[i].instr.bytes) &&
      (forall i | 0 <= i < |items| :: items[i].Named? ==>
        ins[i].AInstruction? && 0 <= ins[i].value <= 32767 && b[2 * i..2 * i + 2] == Word(ins[i].value))
  {
    var o := Preassembled(asm);
    assert o.Done?;
    PreassembledShape(asm);
    ItemsLayout(o.items, o.names, b);
  }

  /** The only encoding error `assemble` can report is an address above 32767: raw words
      never fail and no resolved address is negative. */
  lemma AssembledOnlyTooBig(asm: string, e: EncodeError)
    requires Assembled(asm) == Err(EncodeFailure(e))
    ensures e == TooBig
  {
    var items := Preassembled(asm).items;
    var names := Preassembled(asm).names;
    PreassembledShape(asm);
    ResolvedShape(items, names, FirstHighest);
    var ins := ResolvedItems(items, names, FirstHighest).0;
    JoinedFailure(ins, e);
    var i :| 0 <= i < |ins| && ToBytes(ins[i]) == Err(e);
    assert items[i].Ready? ==> WordEntry(items[i]);
  }

  /** Resolving a list in two parts is resolving the first part, then the second from the
      table and counter it left. */
  lemma {:induction false} ResolvedItemsSplit(a: seq<Item>, b: seq<Item>, names: map<string, int>, highest: int)
    ensures var (insA, namesA, highestA) := ResolvedItems(a, names, highest);
      var (insB, namesB, highestB) := ResolvedItems(b, namesA, highestA);
      ResolvedItems(a + b, names, highest) == (insA + insB, namesB, highestB)
    decreases |b|
  {
    if b == [] {
      assert a + b == a;
      var (insA, namesA, highestA) := ResolvedItems(a, names, highest);
      assert insA + [] == insA;
    } else {
      var b' := b[..|b| - 1];
      ResolvedItemsSplit(a, b', names, highest);
      var (insA, namesA, highestA) := ResolvedItems(a, names, highest);
      var (ins1, names1, highest1) := ResolvedItems(b', namesA, highestA);
      var (x, names2, highest2) := ResolvedItem(b[|b| - 1], names1, highest1);
      assert ResolvedItems(b, namesA, highestA) == (ins1 + [x], names2, highest2);
      assert (a + b)[..|a + b| - 1] == a + b';
      assert (a + b)[|a + b| - 1] == b[|b| - 1];
      assert ResolvedItems(a + b, names, highest) == ((insA + ins1) + [x], names2, highest2);
      assert (insA + ins1) + [x] == insA + (ins1 + [x]);
    }
  }

  /** A name bound to a nonzero address keeps it through the whole resolution, and every
      placeholder for it, wherever it stands in the list, becomes that address: a label is
      the same address referenced before or after its definition. */
  lemma {:induction false} BoundNameEverywhere(items: seq<Item>, names: map<string, int>, highest: int, x: string)
    requires BoundNonzero(names, x)
    ensures var (ins, names', highest') := ResolvedItems(items, names, highest);
      x in names' && names'[x] == names[x] &&
      forall i | 0 <= i < |items| && items[i] == Named(x) :: ins[i] == AInstruction(names[x])
    decreases |items|
  {
    if items != [] {
      var pre := items[..|items| - 1];
      BoundNameEverywhere(pre, names, highest, x);
      var (ins1, names1, highest1) := ResolvedItems(pre, names, highest);
      var (ins, names', highest') := ResolvedItems(items, names, highest);
      assert ins == ins1 + [ResolvedItem(items[|items| - 1], names1, highest1).0];
      forall i | 0 <= i < |items| - 1 && items[i] == Named(x) ensures ins[i] == AInstruction(names[x]) {
        assert pre[i] == items[i] && ins[i] == ins1[i];
      }
    }
  }

  /** The counter never goes down. */
  lemma {:induction false} ResolvedCounter(items: seq<Item>, names: map<string, int>, highest: int)
    ensures highest <= ResolvedItems(items, names, highest).2
    decreases |items|
  {
    if items != [] {
      ResolvedCounter(items[..|items| - 1], names, highest);
    }
  }

  /** Two placeholders for the same name resolve to the same address. */
  lemma SameNameSameAddress(items: seq<Item>, names: map<string, int>, highest: int, i: nat, j: nat)
    requires highest >= 0 && i < j < |items| && items[i].Named? && items[j] == items[i]
    ensures var ins := ResolvedItems(items, names, highest).0;
      ins[i] == ins[j]
  {
    var x := items[i].name;
    var a, rest := items[..i + 1], items[i + 1..];
    assert items == a + rest;
    ResolvedItemsSplit(a, rest, names, highest);
    var pre := items[..i];
    assert a[..|a| - 1] == pre && a[|a| - 1] == Named(x);
    var (ins0, names0, highest0) := ResolvedItems(pre, names, highest);
    ResolvedCounter(pre, names, highest);
    NamesProperties.ResolveBindsName(names0, highest0, x);
    var (insA, namesA, highestA) := ResolvedItems(a, names, highest);
    assert insA[i] == AInstruction(namesA[x]);
    BoundNameEverywhere(rest, namesA, highestA, x);
    assert rest[j - i - 1] == Named(x);
  }

  /** The names that resolving `items` from `names` allocates, in the order of their first
      use: the placeholders whose name is not bound to a nonzero address, each taken once. */
  function Fresh(items: seq<Item>, names: map<string, int>): seq<string>
    decreases |items|
  {
    if items == [] then []
    else
      var f := Fresh(items[..|items| - 1], names);
      var last := items[|items| - 1];
      if last.Named? && !BoundNonzero(names, last.name) && last.name !in f then f + [last.name] else f
  }

  /** `Fresh` lists every name of a placeholder not bound to a nonzero address, and no name
      twice. */
  lemma {:induction false} FreshNames(items: seq<Item>, names: map<string, int>)
    ensures Seqs.Distinct(Fresh(items, names))
    ensures forall x :: x in Fresh(items, names) <==> Named(x) in items && !BoundNonzero(names, x)
    decreases |items|
  {
    if items != [] {
      var pre := items[..|items| - 1];
      var last := items[|items| - 1];
      FreshNames(pre, names);
      assert items == pre + [last];
      var f1 := Fresh(pre, names);
      if last.Named? && !BoundNonzero(names, last.name) && last.name !in f1 {
        var f := f1 + [last.name];
        forall i, j | 0 <= i < j < |f| ensures f[i] != f[j] {
          if j == |f1| {
            assert f[i] == f1[i];
          } else {
            assert f[i] == f1[i] && f[j] == f1[j];
          }
        }
      }
    }
  }

  /** The names allocated for a prefix are a prefix of the names allocated for the whole. */
  lemma {:induction false} FreshPrefix(items: seq<Item>, names: map<string, int>, j: nat)
    requires j <= |items|
    ensures Fresh(items[..j], names) <= Fresh(items, names)
    decreases |items| - j
  {
    if j == |items| {
      assert items[..j] == items;
    } else {
      var pre := items[..|items| - 1];
      FreshPrefix(pre, names, j);
      assert pre[..j] == items[..j];
    }
  }

  /** A placeholder whose name has not occurred before index i, and is not bound to a nonzero
      address, names the next name allocated after those allocated for the entries before i. */
  lemma FreshFirstUse(items: seq<Item>, names: map<string, int>, i: nat)
    requires i < |items| && items[i].Named? && !BoundNonzero(names, items[i].name)
    requires Named(items[i].name) !in items[..i]
    ensures var k := |Fresh(items[..i], names)|;
      k < |Fresh(items, names)| && Fresh(items, names)[k] == items[i].name
  {
    FreshNames(items[..i], names);
    assert items[..i + 1][..i] == items[..i];
    assert items[..i + 1][i] == items[i];
    FreshPrefix(items, names, i + 1);
  }

  /** Resolving a list from a counter of at least 0 allocates highest + 1 + k to the k-th name
      of `Fresh`, leaves every other binding as it was, and turns each placeholder into the
      final address of its name, which is nonzero. */
  lemma {:induction false} FreshAddresses(items: seq<Item>, names: map<string, int>, highest: int)
    requires highest >= 0
    ensures var (ins, names', highest') := ResolvedItems(items, names, highest);
      var f := Fresh(items, names);
      highest' == highest + |f| &&
      (forall k | 0 <= k < |f| :: f[k] in names' && names'[f[k]] == highest + 1 + k) &&
      (forall x | x !in f :: (x in names' <==> x in names) && (x in names ==> names'[x] == names[x])) &&
      (forall i | 0 <= i < |items| && items[i].Named? ::
        BoundNonzero(names', items[i].name) && ins[i] == AInstruction(names'[items[i].name]))
    decreases |items|
  {
    if items != [] {
      var pre := items[..|items| - 1];
      var last := items[|items| - 1];
      FreshAddresses(pre, names, highest);
      var (ins1, names1, highest1) := ResolvedItems(pre, names, highest);
      var f1 := Fresh(pre, names);
      var (ins, names', highest') := ResolvedItems(items, names, highest);
      var f := Fresh(items, names);
      assert ins == ins1 + [ResolvedItem(last, names1, highest1).0];
      forall i | 0 <= i < |pre| ensures ins[i] == ins1[i] && items[i] == pre[i] { }
      if last.Named? && !BoundNonzero(names1, last.name) {
        var x := last.name;
        forall k | 0 <= k < |f1| ensures f1[k] != x { }
        assert !BoundNonzero(names, x);
        assert f == f1 + [x];
        assert names' == names1[x := highest1 + 1] && highest' == highest1 + 1;
        forall i | 0 <= i < |pre| && pre[i].Named?
          ensures BoundNonzero(names', items[i].name) && ins[i] == AInstruction(names'[items[i].name])
        {
          assert BoundNonzero(names1, pre[i].name);
        }
      } else {
        assert names' == names1 && highest' == highest1;
        assert f == f1;
      }
    }
  }

  /** With the table `preassemble` returns and the counter at 15, the variables of a program
      get 16, 17, ... in the order `Fresh` lists them, every other name keeps its binding, and
      each placeholder becomes the final address of its name. */
  lemma VariablesFromSixteen(asm: string)
    requires Preassembled(asm).Done?
    ensures var o := Preassembled(asm);
      var (ins, names', highest') := ResolvedItems(o.items, o.names, FirstHighest);
      var f := Fresh(o.items, o.names);
      (forall k | 0 <= k < |f| :: f[k] in names' && names'[f[k]] == 16 + k) &&
      (forall x | x in o.names && x !in f :: x in names' && names'[x] == o.names[x]) &&
      (forall i | 0 <= i < |o.items| && o.items[i].Named? ::
        o.items[i].name in names' && ins[i] == AInstruction(names'[o.items[i].name]))
  {
    FreshAddresses(Preassembled(asm).items, Preassembled(asm).names, FirstHighest);
  }

  /** The first use of a variable, at entry i, gets 16 plus the number of distinct variables
      used before it. */
  lemma VariableFirstUse(asm: string, i: nat)
    requires Preassembled(asm).Done? && i < |Preassembled(asm).items|
    requires var o := Preassembled(asm);
      o.items[i].Named? && !BoundNonzero(o.names, o.items[i].name) && Named(o.items[i].name) !in o.items[..i]
    ensures var o := Preassembled(asm);
      ResolvedItems(o.items, o.names, FirstHighest).0[i] == AInstruction(16 + |Fresh(o.items[..i], o.names)|)
  {
    var o := Preassembled(asm);
    VariablesFromSixteen(asm);
    FreshFirstUse(o.items, o.names, i);
  }
}
