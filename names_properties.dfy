/** What `Namespace` promises: the predefined table, and resolution that either returns a
    nonzero binding or allocates the next address. */
module NamesProperties {
  import opened Names
  import opened Seqs

  const Registers: seq<string> :=
    ["R0", "R1", "R2", "R3", "R4", "R5", "R6", "R7", "R8", "R9", "R10", "R11", "R12", "R13", "R14", "R15"]
  const SegmentBases: seq<string> := ["SP", "LCL", "ARG", "THIS", "THAT"]
  /** SP, LCL, ARG, THIS, THAT and the two devices. */
  const Others: seq<string> := SegmentBases + ["SCREEN", "KBD"]
  const Predefined: seq<string> := Registers + Others

  /** The predefined table binds exactly the listed names. */
  lemma DefaultNamesKeys()
    ensures DefaultNames.Keys == set x | x in Predefined
  {
  }

  lemma PredefinedDistinct()
    ensures Distinct(Predefined)
  {
    RegistersDistinct();
    OthersDistinct();
    forall x, y | x in Registers && y in Others ensures x != y {
      assert x[0] == 'R' && y[0] != 'R';
    }
    DistinctConcat(Registers, Others);
  }

  /** The register names differ, and each starts with `R`. */
  lemma RegistersDistinct()
    ensures Distinct(Registers)
    ensures forall x | x in Registers :: |x| > 0 && x[0] == 'R'
  {
  }

  /** The other predefined names differ, and none starts with `R`. */
  lemma OthersDistinct()
    ensures Distinct(Others)
    ensures forall y | y in Others :: |y| > 0 && y[0] != 'R'
  {
  }

  /** A fresh namespace holds exactly the 23 predefined names: R0..R15 at 0..15, SP..THAT at
      0..4, SCREEN and KBD at the two memory-mapped devices. */
  lemma DefaultNamesContents()
    ensures DefaultNames.Keys == set x | x in Predefined
    ensures |DefaultNames| == 23
    ensures forall k | 0 <= k < 16 :: DefaultNames[Registers[k]] == k
    ensures forall k | 0 <= k < 5 :: DefaultNames[SegmentBases[k]] == k
    ensures DefaultNames["SCREEN"] == 16384 && DefaultNames["KBD"] == 24576
  {
    DefaultNamesKeys();
    DefaultNamesSize();
    RegisterAddresses();
    SegmentBaseAddresses();
  }

  /** The table has one entry per predefined name. */
  lemma DefaultNamesSize()
    ensures |DefaultNames| == 23
  {
    DefaultNamesKeys();
    PredefinedDistinct();
    DistinctCount(Predefined);
    assert |DefaultNames.Keys| == |DefaultNames|;
  }

  lemma SegmentBaseAddresses()
    ensures forall k | 0 <= k < 5 :: DefaultNames[SegmentBases[k]] == k
  {
  }

  lemma RegisterAddresses()
    ensures forall k | 0 <= k < 16 :: DefaultNames[Registers[k]] == k
  {
    forall k | 0 <= k < 16 ensures DefaultNames[Registers[k]] == k {
      if k < 8 {
        LowRegister(k);
      } else {
        HighRegister(k);
      }
    }
  }

  lemma LowRegister(k: nat)
    requires k < 8
    ensures DefaultNames[Registers[k]] == k
  {
    assert k == 0 || k == 1 || k == 2 || k == 3 || k == 4 || k == 5 || k == 6 || k == 7;
  }

  lemma HighRegister(k: nat)
    requires 8 <= k < 16
    ensures DefaultNames[Registers[k]] == k
  {
    assert k == 8 || k == 9 || k == 10 || k == 11 || k == 12 || k == 13 || k == 14 || k == 15;
  }

  /** Resolving leaves the table and the counter as they were exactly when the name is bound to
      a nonzero address; otherwise the counter moves on by one. */
  lemma ResolveChangesNothingIffBound(names: map<string, int>, highest: int, name: string)
    ensures var (addr, names', highest') := Resolution(names, highest, name);
      (names' == names && highest' == highest) <==> BoundNonzero(names, name)
    ensures var (addr, names', highest') := Resolution(names, highest, name);
      !BoundNonzero(names, name) ==> highest' == highest + 1
  {
  }

  /** With a nonnegative counter every resolved name ends up bound to the nonzero address
      returned, and only that name's binding changes. */
  lemma ResolveBindsName(names: map<string, int>, highest: int, name: string)
    requires highest >= 0
    ensures var (addr, names', highest') := Resolution(names, highest, name);
      addr != 0 && BoundNonzero(names', name) && names'[name] == addr && highest <= highest' &&
      names'.Keys == names.Keys + {name} &&
      forall other | other in names && other != name :: names'[other] == names[other]
  {
  }

  /** Resolving the same name a second time returns the same address and changes nothing. */
  lemma ResolveTwice(names: map<string, int>, highest: int, name: string)
    requires highest >= 0
    ensures var (addr, names1, highest1) := Resolution(names, highest, name);
      Resolution(names1, highest1, name) == (addr, names1, highest1)
  {
    ResolveBindsName(names, highest, name);
  }

  /** Names predefined at a nonzero address resolve to it whatever the counter. */
  lemma PredefinedResolve(highest: int, name: string)
    requires name in DefaultNames && DefaultNames[name] != 0
    ensures Resolution(DefaultNames, highest, name) == (DefaultNames[name], DefaultNames, highest)
  {
  }

  /** The names predefined at 0 are not kept: on a fresh namespace R0 and SP both resolve to
      16, the first free address. */
  lemma ZeroNamesReallocated()
    ensures Resolution(DefaultNames, FirstHighest, "R0") == (16, DefaultNames["R0" := 16], 16)
    ensures Resolution(DefaultNames, FirstHighest, "SP") == (16, DefaultNames["SP" := 16], 16)
    ensures var (_, names1, highest1) := Resolution(DefaultNames, FirstHighest, "SP");
      Resolution(names1, highest1, "R0").0 == 17
  {
  }
}
