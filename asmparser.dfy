/** The one-line parser of the assembler: ParseInstruction and the table of
    instruction patterns it is driven by.

    A line loses its comment and surrounding spaces; its first field is the
    mnemonic and the rest of its fields, glued together, are the operands.
    The mnemonic selects a table entry through the lookup map, the entry's
    regular expression splits the operands into captures, and the entry's
    builder checks the immediate's range and sets the fields of a zero word.
    Register numbers are read with strconv.ParseUint and immediates with
    strconv.ParseInt, both saturating; a setter then keeps the field's width. */
module AsmParser {
  import opened Word32
  import opened Results
  import opened GoText
  import opened AsmUtil
  import opened AsmOperands
  import opened AsmInstruction
  import Op = AsmOpcode

  // Immediate ranges and the largest shift amount.
  const I_TYPE_IMM_MIN: int := -2048
  const I_TYPE_IMM_MAX: int := 2047
  const B_TYPE_IMM_MIN: int := -4096
  const B_TYPE_IMM_MAX: int := 4095
  const J_TYPE_IMM_MIN: int := -0x10_0000
  const J_TYPE_IMM_MAX: int := 0xF_FFFF
  const SLLI_SHAMT_MAX: int := 31

  /** The six operand regular expressions. */
  datatype Shape = RTypeOps | ITypeOps | BTypeOps | JalOps | JalrLwSwOps | SlliOps

  function Tokens(sh: Shape): (p: seq<Tok>)
    ensures WellFormed(p)
  {
    match sh
    case RTypeOps => [Lit('x'), Num, Lit(','), Lit('x'), Num, Lit(','), Lit('x'), Num]
    case ITypeOps => [Lit('x'), Num, Lit(','), Lit('x'), Num, Lit(','), SNum]
    case BTypeOps => [Lit('x'), Num, Lit(','), Lit('x'), Num, Lit(','), SNum]
    case JalOps => [Lit('x'), Num, Lit(','), SNum]
    case JalrLwSwOps => [Lit('x'), Num, Lit(','), SNum, Lit('('), Lit('x'), Num, Lit(')')]
    case SlliOps => [Lit('x'), Num, Lit(','), Lit('x'), Num, Lit(','), Num]
  }

  datatype ParseError =
    | EmptyLine
    | InvalidInstruction(line: string)
    | Unsupported(mnemonic: string)
    | InvalidOperands(mnemonic: string, operands: string)
    | ImmOutOfRange(mnemonic: string, imm: int)
    | ShamtOutOfRange(shamt: int)

  /** The builder closures of the table, one per entry. */
  datatype Builder = Addi | Add | Sub | Slt | Branch | Jal | Jalr | Lw | Slli | Sw

  datatype InstrPattern = InstrPattern(mnemonics: seq<string>, regex: Shape, builder: Builder)

  /** The operand form each builder indexes its captures by. */
  function ShapeOf(b: Builder): Shape {
    match b
    case Addi => ITypeOps
    case Add => RTypeOps
    case Sub => RTypeOps
    case Slt => RTypeOps
    case Branch => BTypeOps
    case Jal => JalOps
    case Jalr => JalrLwSwOps
    case Lw => JalrLwSwOps
    case Slli => SlliOps
    case Sw => JalrLwSwOps
  }

  const INSTR_TABLE: seq<InstrPattern> := [
    InstrPattern(["addi"], ITypeOps, Addi),
    InstrPattern(["add"], RTypeOps, Add),
    InstrPattern(["sub"], RTypeOps, Sub),
    InstrPattern(["slt"], RTypeOps, Slt),
    InstrPattern(["beq", "bne", "blt"], BTypeOps, Branch),
    InstrPattern(["jal"], JalOps, Jal),
    InstrPattern(["jalr"], JalrLwSwOps, Jalr),
    InstrPattern(["lw"], JalrLwSwOps, Lw),
    InstrPattern(["slli"], SlliOps, Slli),
    InstrPattern(["sw"], JalrLwSwOps, Sw)
  ]

  const MNEMONICS: set<string> := {"addi", "add", "sub", "slt", "beq", "bne", "blt", "jal", "jalr", "lw", "slli", "sw"}

  /** Each entry's regular expression is the one its builder reads. */
  predicate Paired(e: InstrPattern) { e.regex == ShapeOf(e.builder) }

  // ---------------------------------------------------------------------------
  // The lookup map: every mnemonic of every entry, later entries overwriting.

  function AddMnemonics(m: map<string, InstrPattern>, e: InstrPattern, mns: seq<string>): map<string, InstrPattern>
    decreases |mns|
  {
    if mns == [] then m else AddMnemonics(m, e, mns[..|mns| - 1])[mns[|mns| - 1] := e]
  }

  function LookupOf(table: seq<InstrPattern>): map<string, InstrPattern>
    decreases |table|
  {
    if table == [] then map[]
    else
      var n := |table| - 1;
      AddMnemonics(LookupOf(table[..n]), table[n], table[n].mnemonics)
  }

  /** The map instrLookup is initialised with, built by the same nested loop. */
  method BuildLookup(table: seq<InstrPattern>) returns (m: map<string, InstrPattern>)
    ensures m == LookupOf(table)
  {
    m := map[];
    var i := 0;
    while i < |table|
      invariant 0 <= i <= |table|
      invariant m == LookupOf(table[..i])
    {
      var mns := table[i].mnemonics;
      var j := 0;
      while j < |mns|
        invariant 0 <= j <= |mns|
        invariant m == AddMnemonics(LookupOf(table[..i]), table[i], mns[..j])
      {
        assert mns[..j + 1][..j] == mns[..j];
        m := m[mns[j] := table[i]];
        j := j + 1;
      }
      assert mns[..j] == mns;
      assert table[..i + 1][..i] == table[..i];
      i := i + 1;
    }
    assert table[..i] == table;
  }

  lemma {:induction false} AddMnemonicsSpec(m: map<string, InstrPattern>, e: InstrPattern, mns: seq<string>, k: string)
    ensures k in AddMnemonics(m, e, mns) <==> k in m || k in mns
    ensures k in mns ==> AddMnemonics(m, e, mns)[k] == e
    ensures k !in mns && k in m ==> AddMnemonics(m, e, mns)[k] == m[k]
    decreases |mns|
  {
    if mns != [] {
      AddMnemonicsSpec(m, e, mns[..|mns| - 1], k);
      assert mns == mns[..|mns| - 1] + [mns[|mns| - 1]];
    }
  }

  predicate Listed(table: seq<InstrPattern>, k: string) {
    exists i :: 0 <= i < |table| && k in table[i].mnemonics
  }

  /** Entry i lists k and no later entry does. */
  predicate LastListing(table: seq<InstrPattern>, k: string, i: int) {
    0 <= i < |table| && k in table[i].mnemonics && forall j :: i < j < |table| ==> k !in table[j].mnemonics
  }

  /** The lookup map holds exactly the listed mnemonics, each bound to the
      last entry listing it, and every value is an entry of the table. */
  lemma LookupSpec(table: seq<InstrPattern>, k: string)
    ensures k in LookupOf(table) <==> Listed(table, k)
    ensures forall i :: LastListing(table, k, i) ==> k in LookupOf(table) && LookupOf(table)[k] == table[i]
    ensures k in LookupOf(table) ==> exists i :: 0 <= i < |table| && LookupOf(table)[k] == table[i]
  {
    LookupKeys(table, k);
    forall i | LastListing(table, k, i) ensures k in LookupOf(table) && LookupOf(table)[k] == table[i] {
      LookupLast(table, k, i);
    }
    LookupValues(table, k);
  }

  lemma {:induction false} LookupKeys(table: seq<InstrPattern>, k: string)
    ensures k in LookupOf(table) <==> Listed(table, k)
    decreases |table|
  {
    if table != [] {
      var n := |table| - 1;
      var p := table[..n];
      LookupKeys(p, k);
      AddMnemonicsSpec(LookupOf(p), table[n], table[n].mnemonics, k);
      if Listed(table, k) && k !in table[n].mnemonics {
        var i :| 0 <= i < |table| && k in table[i].mnemonics;
        assert p[i] == table[i];
      }
      if Listed(p, k) {
        var i :| 0 <= i < |p| && k in p[i].mnemonics;
        assert table[i] == p[i];
      }
    }
  }

  lemma {:induction false} LookupLast(table: seq<InstrPattern>, k: string, i: int)
    requires LastListing(table, k, i)
    ensures k in LookupOf(table) && LookupOf(table)[k] == table[i]
    decreases |table|
  {
    var n := |table| - 1;
    var p := table[..n];
    AddMnemonicsSpec(LookupOf(p), table[n], table[n].mnemonics, k);
    if i < n {
      assert k !in table[n].mnemonics;
      assert p[i] == table[i];
      assert LastListing(p, k, i);
      LookupLast(p, k, i);
    }
  }

  lemma {:induction false} LookupValues(table: seq<InstrPattern>, k: string)
    ensures k in LookupOf(table) ==> exists i :: 0 <= i < |table| && LookupOf(table)[k] == table[i]
    decreases |table|
  {
    if table != [] {
      var n := |table| - 1;
      var p := table[..n];
      LookupValues(p, k);
      AddMnemonicsSpec(LookupOf(p), table[n], table[n].mnemonics, k);
      if k in LookupOf(table) && k !in table[n].mnemonics {
        var i :| 0 <= i < |p| && LookupOf(p)[k] == p[i];
        assert table[i] == p[i];
      }
    }
  }

  /** The index of the table entry a supported mnemonic is looked up to. */
  function EntryIndex(mn: string): (i: nat)
    requires mn in MNEMONICS
    ensures i < |INSTR_TABLE| && mn in INSTR_TABLE[i].mnemonics
  {
    if mn == "addi" then 0
    else if mn == "add" then 1
    else if mn == "sub" then 2
    else if mn == "slt" then 3
    else if mn == "beq" || mn == "bne" || mn == "blt" then 4
    else if mn == "jal" then 5
    else if mn == "jalr" then 6
    else if mn == "lw" then 7
    else if mn == "slli" then 8
    else 9
  }

  lemma TableListed(mn: string)
    ensures Listed(INSTR_TABLE, mn) <==> mn in MNEMONICS
  {
    if Listed(INSTR_TABLE, mn) {
      var i :| 0 <= i < |INSTR_TABLE| && mn in INSTR_TABLE[i].mnemonics;
      assert mn in INSTR_TABLE[i].mnemonics;
    }
    if mn in MNEMONICS {
      assert mn in INSTR_TABLE[EntryIndex(mn)].mnemonics;
    }
  }

  lemma TableLast(mn: string)
    requires mn in MNEMONICS
    ensures LastListing(INSTR_TABLE, mn, EntryIndex(mn))
  {
  }

  lemma TablePaired()
    ensures forall i :: 0 <= i < |INSTR_TABLE| ==> Paired(INSTR_TABLE[i])
  {
  }

  /** The lookup map of the table: the twelve mnemonics, each bound to the
      entry that lists it; every entry pairs its regex with its builder's. */
  lemma TableLookup(mn: string)
    ensures mn in LookupOf(INSTR_TABLE) <==> mn in MNEMONICS
    ensures mn in MNEMONICS ==> LookupOf(INSTR_TABLE)[mn] == INSTR_TABLE[EntryIndex(mn)]
    ensures mn in LookupOf(INSTR_TABLE) ==> Paired(LookupOf(INSTR_TABLE)[mn])
  {
    LookupSpec(INSTR_TABLE, mn);
    TableListed(mn);
    if mn in MNEMONICS {
      TableLast(mn);
    }
    if mn in LookupOf(INSTR_TABLE) {
      TablePaired();
    }
  }

  // ---------------------------------------------------------------------------
  // Builders.

  /** parseUint of a register capture, as the setter receives it. */
  function Reg(s: string): bv32
    requires IsDigits(s)
  {
    FromInt(ParseUint32(s))
  }

  /** The five-bit register field a capture ends up in: its saturated value modulo 32. */
  function RegField(s: string): (r: bv32)
    requires IsDigits(s)
    ensures Unsigned(r) == ParseUint32(s) % 32
  {
    UnsignedLow5(Reg(s));
    UnsignedOfNat(ParseUint32(s));
    Reg(s) & 0x1F
  }

  /** The R-type builders: opcode, rd, rs1, rs2, funct3, funct7, in that order. */
  function BuildR(funct3: bv32, funct7: bv32, rd: string, rs1: string, rs2: string): (r: Instruction)
    requires IsDigits(rd) && IsDigits(rs1) && IsDigits(rs2)
    ensures Opcode(r) == Op.OPCODE_R_TYPE
    ensures Rd(r) == RegField(rd) && Rs1(r) == RegField(rs1) && Rs2(r) == RegField(rs2)
    ensures Funct3(r) == funct3 & 0x7 && Funct7(r) == funct7 & 0x7F
  {
    var i0 := SetOpcode(0, Op.OPCODE_R_TYPE);
    var i1 := SetRd(i0, Reg(rd));
    var i2 := SetRs1(i1, Reg(rs1));
    var i3 := SetRs2(i2, Reg(rs2));
    var i4 := SetFunct3(i3, funct3);
    var i5 := SetFunct7(i4, funct7);
    RdOthers(i0, Reg(rd));
    Rs1Others(i1, Reg(rs1));
    Rs2Others(i2, Reg(rs2));
    Funct3Others(i3, funct3);
    Funct7Others(i4, funct7);
    i5
  }

  /** The four fields an I-type builder sets before its immediate. */
  function IFields(opcode: bv32, funct3: bv32, rd: string, rs1: string): (r: Instruction)
    requires IsDigits(rd) && IsDigits(rs1)
    ensures Opcode(r) == opcode & 0x7F && Funct3(r) == funct3 & 0x7
    ensures Rd(r) == RegField(rd) && Rs1(r) == RegField(rs1)
  {
    var i0 := SetOpcode(0, opcode);
    var i1 := SetRd(i0, Reg(rd));
    var i2 := SetRs1(i1, Reg(rs1));
    var i3 := SetFunct3(i2, funct3);
    RdOthers(i0, Reg(rd));
    Rs1Others(i1, Reg(rs1));
    Funct3Others(i2, funct3);
    i3
  }

  /** addi, jalr and lw: an immediate in [-2048, 2047], else an error naming it. */
  function BuildImmI(opcode: bv32, funct3: bv32, name: string, rd: string, rs1: string, imm: string): (r: Result<Instruction, ParseError>)
    requires IsDigits(rd) && IsDigits(rs1) && IsSignedDigits(imm)
    ensures var v := ParseInt32(imm);
      r.Err? <==> !(I_TYPE_IMM_MIN <= v <= I_TYPE_IMM_MAX)
    ensures r.Err? ==> r.error == ImmOutOfRange(name, ParseInt32(imm))
    ensures r.Ok? ==> (Opcode(r.value) == opcode & 0x7F && Funct3(r.value) == funct3 & 0x7
      && Rd(r.value) == RegField(rd) && Rs1(r.value) == RegField(rs1) && ImmI(r.value) == ParseInt32(imm))
  {
    var v := ParseInt32(imm);
    if v < I_TYPE_IMM_MIN || v > I_TYPE_IMM_MAX then Err(ImmOutOfRange(name, v))
    else
      var i := IFields(opcode, funct3, rd, rs1);
      SetImmIKeeps(i, v);
      ImmIRoundTrip(i, v);
      Ok(SetImmI(i, v))
  }

  /** beq, bne, blt: opcode, rs1, rs2, the funct3 the mnemonic selects, then
      an immediate in [-4096, 4095] of which bit 0 is dropped. */
  function BuildBranch(mnemonic: string, rs1: string, rs2: string, imm: string): (r: Result<Instruction, ParseError>)
    requires IsDigits(rs1) && IsDigits(rs2) && IsSignedDigits(imm)
    ensures var v := ParseInt32(imm);
      r.Err? <==> !(B_TYPE_IMM_MIN <= v <= B_TYPE_IMM_MAX)
    ensures r.Err? ==> r.error == ImmOutOfRange(mnemonic, ParseInt32(imm))
    ensures r.Ok? ==> (Opcode(r.value) == Op.OPCODE_BRANCH
      && Rs1(r.value) == RegField(rs1) && Rs2(r.value) == RegField(rs2)
      && Funct3(r.value) == BranchFunct3(mnemonic)
      && ImmB(r.value) == ParseInt32(imm) - ParseInt32(imm) % 2)
  {
    var v := ParseInt32(imm);
    if v < B_TYPE_IMM_MIN || v > B_TYPE_IMM_MAX then Err(ImmOutOfRange(mnemonic, v))
    else
      var i3 := BranchFields(mnemonic, rs1, rs2);
      SetImmBKeeps(i3, v);
      ImmBRoundTrip(i3, v);
      Ok(SetImmB(i3, v))
  }

  /** The fields a branch builder sets before its immediate; the switch on
      the mnemonic sets funct3 only for the three branch names. */
  function BranchFields(mnemonic: string, rs1: string, rs2: string): (r: Instruction)
    requires IsDigits(rs1) && IsDigits(rs2)
    ensures Opcode(r) == Op.OPCODE_BRANCH && Funct3(r) == BranchFunct3(mnemonic)
    ensures Rs1(r) == RegField(rs1) && Rs2(r) == RegField(rs2)
  {
    var i0 := SetOpcode(0, Op.OPCODE_BRANCH);
    var i1 := SetRs1(i0, Reg(rs1));
    var i2 := SetRs2(i1, Reg(rs2));
    Rs1Others(i0, Reg(rs1));
    Rs2Others(i1, Reg(rs2));
    if mnemonic == "beq" then
      Funct3Others(i2, Op.FUNCT3_BEQ);
      SetFunct3(i2, Op.FUNCT3_BEQ)
    else if mnemonic == "bne" then
      Funct3Others(i2, Op.FUNCT3_BNE);
      SetFunct3(i2, Op.FUNCT3_BNE)
    else if mnemonic == "blt" then
      Funct3Others(i2, Op.FUNCT3_SLT);
      SetFunct3(i2, Op.FUNCT3_SLT)
    else i2
  }

  /** The funct3 a branch mnemonic selects; any other name leaves the zeroed field. */
  function BranchFunct3(mnemonic: string): bv32 {
    if mnemonic == "beq" then Op.FUNCT3_BEQ
    else if mnemonic == "bne" then Op.FUNCT3_BNE
    else if mnemonic == "blt" then Op.FUNCT3_SLT
    else 0
  }

  /** jal: opcode, rd, then an immediate in [-2^20, 2^20 - 1] of which bit 0 is dropped. */
  function BuildJal(rd: string, imm: string): (r: Result<Instruction, ParseError>)
    requires IsDigits(rd) && IsSignedDigits(imm)
    ensures var v := ParseInt32(imm);
      r.Err? <==> !(J_TYPE_IMM_MIN <= v <= J_TYPE_IMM_MAX)
    ensures r.Err? ==> r.error == ImmOutOfRange("jal", ParseInt32(imm))
    ensures r.Ok? ==> (Opcode(r.value) == Op.OPCODE_JAL && Rd(r.value) == RegField(rd)
      && ImmJ(r.value) == ParseInt32(imm) - ParseInt32(imm) % 2)
  {
    var v := ParseInt32(imm);
    if v < J_TYPE_IMM_MIN || v > J_TYPE_IMM_MAX then Err(ImmOutOfRange("jal", v))
    else
      var i0 := SetOpcode(0, Op.OPCODE_JAL);
      var i1 := SetRd(i0, Reg(rd));
      RdOthers(i0, Reg(rd));
      SetImmJKeeps(i1, v);
      ImmJRoundTrip(i1, v);
      Ok(SetImmJ(i1, v))
  }

  /** slli: a shift amount of at most 31, put in the I immediate, so funct7 stays zero. */
  function BuildSlli(rd: string, rs1: string, shamt: string): (r: Result<Instruction, ParseError>)
    requires IsDigits(rd) && IsDigits(rs1) && IsDigits(shamt)
    ensures r.Err? <==> ParseUint32(shamt) > SLLI_SHAMT_MAX
    ensures r.Err? ==> r.error == ShamtOutOfRange(ParseUint32(shamt))
    ensures r.Ok? ==> (Opcode(r.value) == Op.OPCODE_I_TYPE && Funct3(r.value) == Op.FUNCT3_SLLI
      && Rd(r.value) == RegField(rd) && Rs1(r.value) == RegField(rs1)
      && ImmI(r.value) == ParseUint32(shamt) && Funct7(r.value) == 0)
  {
    var n := ParseUint32(shamt);
    if n > SLLI_SHAMT_MAX then Err(ShamtOutOfRange(n))
    else
      var i := IFields(Op.OPCODE_I_TYPE, Op.FUNCT3_SLLI, rd, rs1);
      SetImmIKeeps(i, n);
      ImmIRoundTrip(i, n);
      SetImmIShamt(i, n);
      Ok(SetImmI(i, n))
  }

  /** sw: opcode, rs1, rs2, funct3, then an S immediate in [-2048, 2047]. */
  function BuildStore(rs2: string, imm: string, rs1: string): (r: Result<Instruction, ParseError>)
    requires IsDigits(rs2) && IsDigits(rs1) && IsSignedDigits(imm)
    ensures var v := ParseInt32(imm);
      r.Err? <==> !(I_TYPE_IMM_MIN <= v <= I_TYPE_IMM_MAX)
    ensures r.Err? ==> r.error == ImmOutOfRange("sw", ParseInt32(imm))
    ensures r.Ok? ==> (Opcode(r.value) == Op.OPCODE_STORE && Funct3(r.value) == Op.FUNCT3_SW
      && Rs1(r.value) == RegField(rs1) && Rs2(r.value) == RegField(rs2) && ImmS(r.value) == ParseInt32(imm))
  {
    var v := ParseInt32(imm);
    if v < I_TYPE_IMM_MIN || v > I_TYPE_IMM_MAX then Err(ImmOutOfRange("sw", v))
    else
      var i0 := SetOpcode(0, Op.OPCODE_STORE);
      var i1 := SetRs1(i0, Reg(rs1));
      var i2 := SetRs2(i1, Reg(rs2));
      var i3 := SetFunct3(i2, Op.FUNCT3_SW);
      Rs1Others(i0, Reg(rs1));
      Rs2Others(i1, Reg(rs2));
      Funct3Others(i2, Op.FUNCT3_SW);
      SetImmSKeeps(i3, v);
      ImmSRoundTrip(i3, v);
      Ok(SetImmS(i3, v))
  }

  lemma CapturesR() ensures Captures(Tokens(RTypeOps)) == [Num, Num, Num] { }
  lemma CapturesI() ensures Captures(Tokens(ITypeOps)) == [Num, Num, SNum] { }
  lemma CapturesB() ensures Captures(Tokens(BTypeOps)) == [Num, Num, SNum] { }
  lemma CapturesJal() ensures Captures(Tokens(JalOps)) == [Num, SNum] { }
  lemma CapturesMem() ensures Captures(Tokens(JalrLwSwOps)) == [Num, SNum, Num] { }
  lemma CapturesSlli() ensures Captures(Tokens(SlliOps)) == [Num, Num, Num] { }

  /** The groups of each operand form, in order. */
  function GroupsOf(sh: Shape): (ks: seq<Tok>)
    ensures ks == Captures(Tokens(sh))
  {
    match sh
    case RTypeOps => CapturesR(); [Num, Num, Num]
    case ITypeOps => CapturesI(); [Num, Num, SNum]
    case BTypeOps => CapturesB(); [Num, Num, SNum]
    case JalOps => CapturesJal(); [Num, SNum]
    case JalrLwSwOps => CapturesMem(); [Num, SNum, Num]
    case SlliOps => CapturesSlli(); [Num, Num, Num]
  }

  /** The captures of each operand form, with the text each must have. */
  lemma CapsOf(sh: Shape, caps: seq<string>)
    requires CapsFit(Tokens(sh), caps)
    ensures sh == JalOps ==> |caps| == 2 && IsDigits(caps[0]) && IsSignedDigits(caps[1])
    ensures sh != JalOps ==> |caps| == 3
    ensures sh == RTypeOps || sh == SlliOps ==> IsDigits(caps[0]) && IsDigits(caps[1]) && IsDigits(caps[2])
    ensures sh == ITypeOps || sh == BTypeOps ==> IsDigits(caps[0]) && IsDigits(caps[1]) && IsSignedDigits(caps[2])
    ensures sh == JalrLwSwOps ==> IsDigits(caps[0]) && IsSignedDigits(caps[1]) && IsDigits(caps[2])
  {
    var ks := GroupsOf(sh);
    assert forall k :: 0 <= k < |caps| ==> Fits(ks[k], caps[k]);
  }

  /** A builder applied to the captures of its regular expression. */
  function Build(b: Builder, caps: seq<string>, mnemonic: string): Result<Instruction, ParseError>
    requires CapsFit(Tokens(ShapeOf(b)), caps)
  {
    CapsOf(ShapeOf(b), caps);
    match b
    case Addi => BuildImmI(Op.OPCODE_I_TYPE, Op.FUNCT3_ADDI, "addi", caps[0], caps[1], caps[2])
    case Add => Ok(BuildR(Op.FUNCT3_ADD_SUB, Op.FUNCT7_ADD, caps[0], caps[1], caps[2]))
    case Sub => Ok(BuildR(Op.FUNCT3_ADD_SUB, Op.FUNCT7_SUB, caps[0], caps[1], caps[2]))
    case Slt => Ok(BuildR(Op.FUNCT3_SLT, 0, caps[0], caps[1], caps[2]))
    case Branch => BuildBranch(mnemonic, caps[0], caps[1], caps[2])
    case Jal => BuildJal(caps[0], caps[1])
    case Jalr => BuildImmI(Op.OPCODE_JALR, Op.FUNCT3_JALR, "jalr", caps[0], caps[2], caps[1])
    case Lw => BuildImmI(Op.OPCODE_LOAD, Op.FUNCT3_LW, "lw", caps[0], caps[2], caps[1])
    case Slli => BuildSlli(caps[0], caps[1], caps[2])
    case Sw => BuildStore(caps[0], caps[1], caps[2])
  }

  // ---------------------------------------------------------------------------
  // ParseInstruction.

  /** Lookup and operand match: the builder to run and the captures it gets. */
  function Select(mnemonic: string, operands: string): (r: Result<(Builder, seq<string>), ParseError>)
    ensures r.Ok? ==> CapsFit(Tokens(ShapeOf(r.value.0)), r.value.1)
  {
    var lookup := LookupOf(INSTR_TABLE);
    if mnemonic !in lookup then Err(Unsupported(mnemonic))
    else
      var pattern := lookup[mnemonic];
      var found := Match(Tokens(pattern.regex), operands);
      if found.None? then Err(InvalidOperands(mnemonic, operands))
      else
        TableLookup(mnemonic);
        MatchSound(Tokens(pattern.regex), operands);
        Ok((pattern.builder, found.value))
  }

  /** The part of ParseInstruction after the line is split: lookup, operand match, build. */
  function ParseOperation(mnemonic: string, operands: string): Result<Instruction, ParseError> {
    var selected := Select(mnemonic, operands);
    if selected.Err? then Err(selected.error)
    else Build(selected.value.0, selected.value.1, mnemonic)
  }

  function ParseInstruction(line: string): Result<Instruction, ParseError> {
    var code := RemoveCommentAndTrim(line);
    if code == [] then Err(EmptyLine)
    else
      var parts := Fields(code);
      if |parts| < 1 then Err(InvalidInstruction(code))
      else ParseOperation(parts[0], NonSpace(Join(parts[1..], "")))
  }

  // ---------------------------------------------------------------------------
  // How ParseInstruction treats a line.

  /** ParseOperation fails only for an unknown mnemonic, operands of the wrong
      form, or a number out of range. */
  lemma OperationErrors(mnemonic: string, operands: string)
    ensures var r := ParseOperation(mnemonic, operands);
      r.Err? ==> (r.error in {Unsupported(mnemonic), InvalidOperands(mnemonic, operands)}
        || r.error.ImmOutOfRange? || r.error.ShamtOutOfRange?)
  {
  }

  /** A line is reported empty exactly when nothing is left of it once its
      comment and surrounding spaces are removed. */
  lemma ParseEmptyLine(line: string)
    ensures ParseInstruction(line) == Err(EmptyLine) <==> RemoveCommentAndTrim(line) == []
  {
    var code := RemoveCommentAndTrim(line);
    if code != [] && |Fields(code)| >= 1 {
      OperationErrors(Fields(code)[0], NonSpace(Join(Fields(code)[1..], "")));
    }
  }

  /** A blank line or a comment line is an empty line. */
  lemma ParseBlankLine(w: string, comment: string)
    requires AllSpace(w)
    requires comment == [] || comment[0] in COMMENT_CHARS
    ensures ParseInstruction(w + comment) == Err(EmptyLine)
  {
    NoCommentInSpaces(w);
    RemoveCommentKeeps(w, comment);
    ParseEmptyLine(w + comment);
  }

  /** The invalid-instruction error is never produced: a non-empty trimmed
      line always has a first field. */
  lemma ParseNeverInvalid(line: string)
    ensures !(ParseInstruction(line).Err? && ParseInstruction(line).error.InvalidInstruction?)
  {
    var code := RemoveCommentAndTrim(line);
    if code != [] {
      FieldsEmpty(code);
      assert !AllSpace(code) by { assert !IsSpace(code[0]); }
      OperationErrors(Fields(code)[0], NonSpace(Join(Fields(code)[1..], "")));
    }
  }

  lemma ParseInstructionOf(line: string)
    requires RemoveCommentAndTrim(line) != [] && Fields(RemoveCommentAndTrim(line)) != []
    ensures var parts := Fields(RemoveCommentAndTrim(line));
      ParseInstruction(line) == ParseOperation(parts[0], NonSpace(Join(parts[1..], "")))
  {
  }

  /** The mnemonic is the first field and the operands are the other fields
      glued together; removeAllWhitespace finds nothing left to remove. */
  lemma ParseByFields(line: string)
    requires RemoveCommentAndTrim(line) != []
    ensures var parts := Fields(RemoveCommentAndTrim(line));
      parts != [] && ParseInstruction(line) == ParseOperation(parts[0], Join(parts[1..], ""))
  {
    var code := RemoveCommentAndTrim(line);
    var parts := Fields(code);
    assert parts != [] by {
      FieldsEmpty(code);
      assert !IsSpace(code[0]);
    }
    GluedNoSpace(parts);
    ParseInstructionOf(line);
  }

  lemma GluedNoSpace(parts: seq<string>)
    requires parts != [] && forall k :: 0 <= k < |parts| ==> NoSpace(parts[k])
    ensures NonSpace(Join(parts[1..], "")) == Join(parts[1..], "")
  {
    var rest := parts[1..];
    assert forall k :: 0 <= k < |rest| ==> rest[k] == parts[k + 1];
    JoinNoSpace(rest, "");
    NonSpaceId(Join(rest, ""));
  }

  /** A line whose first field is not one of the twelve mnemonics is unsupported. */
  lemma ParseUnsupported(line: string)
    requires RemoveCommentAndTrim(line) != []
    requires Fields(RemoveCommentAndTrim(line))[0] !in MNEMONICS
    ensures ParseInstruction(line) == Err(Unsupported(Fields(RemoveCommentAndTrim(line))[0]))
  {
    ParseByFields(line);
    TableLookup(Fields(RemoveCommentAndTrim(line))[0]);
  }

  predicate Word(w: string) { w != [] && NoSpace(w) && NoComment(w) }

  lemma JoinWordsNoComment(ws: seq<string>)
    requires forall k :: 0 <= k < |ws| ==> Word(ws[k])
    ensures NoComment(Join(ws, " "))
  {
    JoinAvoids(ws, " ", '#');
    JoinAvoids(ws, " ", ';');
  }

  /** A text that starts as one word and ends as another is already trimmed. */
  lemma TrimmedBetween(line: string, a: string, b: string)
    requires Word(a) && Word(b) && line != []
    requires line[0] == a[0] && line[|line| - 1] == b[|b| - 1]
    ensures TrimSpace(line) == line
  {
    assert !IsSpace(a[0]);
    assert !IsSpace(b[|b| - 1]);
    TrimSpaceOf(line);
  }

  /** Words joined with single spaces neither start nor end with a space. */
  lemma WordsTrimmed(ws: seq<string>)
    requires ws != [] && forall k :: 0 <= k < |ws| ==> Word(ws[k])
    ensures TrimSpace(Join(ws, " ")) == Join(ws, " ")
  {
    var a, b := ws[0], ws[|ws| - 1];
    assert Word(a) && Word(b);
    JoinHead(ws, " ");
    JoinLast(ws, " ");
    TrimmedBetween(Join(ws, " "), a, b);
  }

  /** Words joined with single spaces are their own code. */
  lemma WordsLine(ws: seq<string>)
    requires ws != [] && forall k :: 0 <= k < |ws| ==> Word(ws[k])
    ensures RemoveCommentAndTrim(Join(ws, " ")) == Join(ws, " ")
  {
    var line := Join(ws, " ");
    JoinWordsNoComment(ws);
    RemoveCommentKeeps(line, []);
    assert line + [] == line;
    WordsTrimmed(ws);
  }

  lemma WordsFields(ws: seq<string>)
    requires forall k :: 0 <= k < |ws| ==> Word(ws[k])
    ensures Fields(Join(ws, " ")) == ws
  {
    FieldsJoin(ws);
  }

  /** Words written with single spaces: the first is the mnemonic, the others glued are the operands. */
  lemma ParseWordsLine(ws: seq<string>)
    requires ws != [] && forall k :: 0 <= k < |ws| ==> Word(ws[k])
    ensures ParseInstruction(Join(ws, " ")) == ParseOperation(ws[0], Join(ws[1..], ""))
  {
    WordsLine(ws);
    WordsFields(ws);
    ParseByFields(Join(ws, " "));
  }

  /** A mnemonic and its operand words, written with single spaces, parse as
      the mnemonic applied to the words glued together. */
  lemma ParseWords(mnemonic: string, ws: seq<string>)
    requires Word(mnemonic) && forall k :: 0 <= k < |ws| ==> Word(ws[k])
    ensures ParseInstruction(Join([mnemonic] + ws, " ")) == ParseOperation(mnemonic, Join(ws, ""))
  {
    var all := [mnemonic] + ws;
    assert forall k :: 0 <= k < |all| ==> Word(all[k]) by {
      forall k | 0 <= k < |all| ensures Word(all[k]) {
        if k > 0 {
          assert all[k] == ws[k - 1];
        }
      }
    }
    ParseWordsLine(all);
    assert all[0] == mnemonic && all[1..] == ws;
  }

  /** A comment after the code changes nothing. */
  lemma ParseIgnoresComment(code: string, comment: string)
    requires NoComment(code)
    requires comment == [] || comment[0] in COMMENT_CHARS
    ensures ParseInstruction(code + comment) == ParseInstruction(code)
  {
    RemoveCommentKeeps(code, comment);
    RemoveCommentKeeps(code, []);
    assert code + [] == code;
  }

  /** Spaces before and after a line change nothing. */
  lemma ParseIgnoresPadding(w1: string, line: string, w2: string)
    requires AllSpace(w1) && AllSpace(w2)
    ensures ParseInstruction(w1 + line + w2) == ParseInstruction(line)
  {
    RemoveCommentAndTrimPad(w1, line, w2);
  }

  /** A builder fails only on an immediate or a shift amount out of range. */
  lemma BuildErrors(b: Builder, caps: seq<string>, mnemonic: string)
    requires CapsFit(Tokens(ShapeOf(b)), caps)
    ensures var r := Build(b, caps, mnemonic);
      r.Err? ==> r.error.ImmOutOfRange? || r.error.ShamtOutOfRange?
  {
  }

  /** For a known mnemonic, the operands are rejected exactly when no captures
      of the entry's regular expression render to them. */
  lemma OperandsRejected(mnemonic: string, operands: string)
    requires mnemonic in MNEMONICS
    ensures var sh := INSTR_TABLE[EntryIndex(mnemonic)].regex;
      ParseOperation(mnemonic, operands) == Err(InvalidOperands(mnemonic, operands)) <==> !Renders(Tokens(sh), operands)
  {
    TableLookup(mnemonic);
    var sh := INSTR_TABLE[EntryIndex(mnemonic)].regex;
    MatchFails(Tokens(sh), operands);
    var selected := Select(mnemonic, operands);
    if selected.Ok? {
      BuildErrors(selected.value.0, selected.value.1, mnemonic);
    }
  }

  /** Once the lookup and the match have picked a builder and captures,
      the instruction is that builder's word. */
  lemma ParseSelected(mnemonic: string, operands: string, b: Builder, caps: seq<string>)
    requires Select(mnemonic, operands) == Ok((b, caps))
    ensures CapsFit(Tokens(ShapeOf(b)), caps)
    ensures ParseOperation(mnemonic, operands) == Build(b, caps, mnemonic)
  {
  }

  /** Operands rendered from fitting captures select the entry's builder with those captures. */
  lemma SelectRendered(mnemonic: string, caps: seq<string>)
    requires mnemonic in MNEMONICS
    requires CapsFit(Tokens(INSTR_TABLE[EntryIndex(mnemonic)].regex), caps)
    ensures var e := INSTR_TABLE[EntryIndex(mnemonic)];
      Select(mnemonic, Render(Tokens(e.regex), caps)) == Ok((e.builder, caps))
  {
    TableLookup(mnemonic);
    MatchComplete(Tokens(INSTR_TABLE[EntryIndex(mnemonic)].regex), caps);
  }

  // ---------------------------------------------------------------------------
  // Each mnemonic on operands in its regular expression's form.

  lemma RenderR(a: string, b: string, c: string)
    ensures Render(Tokens(RTypeOps), [a, b, c]) == "x" + a + ",x" + b + ",x" + c
  {
    var p := Tokens(RTypeOps);
    assert Render(p[7..], [c]) == c;
    assert Render(p[6..], [c]) == "x" + c;
    assert Render(p[5..], [c]) == ",x" + c;
    assert Render(p[4..], [b, c]) == b + ",x" + c;
    assert Render(p[3..], [b, c]) == "x" + b + ",x" + c;
    assert Render(p[2..], [b, c]) == ",x" + b + ",x" + c;
    assert Render(p[1..], [a, b, c]) == a + ",x" + b + ",x" + c;
  }

  lemma RenderRegRegImm(sh: Shape, a: string, b: string, c: string)
    requires sh in {ITypeOps, BTypeOps, SlliOps}
    ensures Render(Tokens(sh), [a, b, c]) == "x" + a + ",x" + b + "," + c
  {
    var p := Tokens(sh);
    assert Render(p[6..], [c]) == c;
    assert Render(p[5..], [c]) == "," + c;
    assert Render(p[4..], [b, c]) == b + "," + c;
    assert Render(p[3..], [b, c]) == "x" + b + "," + c;
    assert Render(p[2..], [b, c]) == ",x" + b + "," + c;
    assert Render(p[1..], [a, b, c]) == a + ",x" + b + "," + c;
  }

  lemma RenderJal(a: string, b: string)
    ensures Render(Tokens(JalOps), [a, b]) == "x" + a + "," + b
  {
    var p := Tokens(JalOps);
    assert Render(p[3..], [b]) == b;
    assert Render(p[2..], [b]) == "," + b;
    assert Render(p[1..], [a, b]) == a + "," + b;
  }

  lemma RenderMem(a: string, b: string, c: string)
    ensures Render(Tokens(JalrLwSwOps), [a, b, c]) == "x" + a + "," + b + "(x" + c + ")"
  {
    var p := Tokens(JalrLwSwOps);
    assert Render(p[7..], []) == ")";
    assert [c][1..] == [];
    assert Render(p[6..], [c]) == c + ")";
    assert Render(p[5..], [c]) == "x" + c + ")";
    assert Render(p[4..], [c]) == "(x" + c + ")";
    assert Render(p[3..], [b, c]) == b + "(x" + c + ")";
    assert Render(p[2..], [b, c]) == "," + b + "(x" + c + ")";
    assert Render(p[1..], [a, b, c]) == a + "," + b + "(x" + c + ")";
  }

  /** Captures of the right forms fit an operand regular expression. */
  lemma FitThree(sh: Shape, a: string, b: string, c: string)
    requires sh != JalOps
    requires sh == RTypeOps || sh == SlliOps ==> IsDigits(a) && IsDigits(b) && IsDigits(c)
    requires sh == ITypeOps || sh == BTypeOps ==> IsDigits(a) && IsDigits(b) && IsSignedDigits(c)
    requires sh == JalrLwSwOps ==> IsDigits(a) && IsSignedDigits(b) && IsDigits(c)
    ensures CapsFit(Tokens(sh), [a, b, c])
  {
    var ks := GroupsOf(sh);
    assert Fits(ks[0], a) && Fits(ks[1], b) && Fits(ks[2], c);
  }

  lemma FitJal(a: string, b: string)
    requires IsDigits(a) && IsSignedDigits(b)
    ensures CapsFit(Tokens(JalOps), [a, b])
  {
    CapturesJal();
  }

  /** The builder a supported mnemonic's entry names. */
  function BuilderOf(mnemonic: string): (b: Builder)
    requires mnemonic in MNEMONICS
    ensures b == INSTR_TABLE[EntryIndex(mnemonic)].builder
  {
    INSTR_TABLE[EntryIndex(mnemonic)].builder
  }

  lemma SelectR(mnemonic: string, rd: string, rs1: string, rs2: string)
    requires mnemonic in {"add", "sub", "slt"} && IsDigits(rd) && IsDigits(rs1) && IsDigits(rs2)
    ensures Select(mnemonic, "x" + rd + ",x" + rs1 + ",x" + rs2) == Ok((BuilderOf(mnemonic), [rd, rs1, rs2]))
  {
    assert INSTR_TABLE[EntryIndex(mnemonic)].regex == RTypeOps;
    assert CapsFit(Tokens(RTypeOps), [rd, rs1, rs2]) by {
      FitThree(RTypeOps, rd, rs1, rs2);
    }
    assert Render(Tokens(RTypeOps), [rd, rs1, rs2]) == "x" + rd + ",x" + rs1 + ",x" + rs2 by {
      RenderR(rd, rs1, rs2);
    }
    SelectRendered(mnemonic, [rd, rs1, rs2]);
  }

  lemma SelectRegRegImm(mnemonic: string, a: string, b: string, c: string)
    requires mnemonic in {"addi", "beq", "bne", "blt", "slli"}
    requires IsDigits(a) && IsDigits(b) && (if mnemonic == "slli" then IsDigits(c) else IsSignedDigits(c))
    ensures Select(mnemonic, "x" + a + ",x" + b + "," + c) == Ok((BuilderOf(mnemonic), [a, b, c]))
  {
    var sh := INSTR_TABLE[EntryIndex(mnemonic)].regex;
    RenderRegRegImm(sh, a, b, c);
    FitThree(sh, a, b, c);
    SelectRendered(mnemonic, [a, b, c]);
  }

  lemma SelectMem(mnemonic: string, a: string, b: string, c: string)
    requires mnemonic in {"jalr", "lw", "sw"} && IsDigits(a) && IsSignedDigits(b) && IsDigits(c)
    ensures Select(mnemonic, "x" + a + "," + b + "(x" + c + ")") == Ok((BuilderOf(mnemonic), [a, b, c]))
  {
    assert INSTR_TABLE[EntryIndex(mnemonic)].regex == JalrLwSwOps;
    assert CapsFit(Tokens(JalrLwSwOps), [a, b, c]) by {
      FitThree(JalrLwSwOps, a, b, c);
    }
    assert Render(Tokens(JalrLwSwOps), [a, b, c]) == "x" + a + "," + b + "(x" + c + ")" by {
      RenderMem(a, b, c);
    }
    SelectRendered(mnemonic, [a, b, c]);
  }

  lemma SelectJal(rd: string, imm: string)
    requires IsDigits(rd) && IsSignedDigits(imm)
    ensures Select("jal", "x" + rd + "," + imm) == Ok((Jal, [rd, imm]))
  {
    assert INSTR_TABLE[EntryIndex("jal")].regex == JalOps && INSTR_TABLE[EntryIndex("jal")].builder == Jal;
    assert CapsFit(Tokens(JalOps), [rd, imm]) by {
      FitJal(rd, imm);
    }
    assert Render(Tokens(JalOps), [rd, imm]) == "x" + rd + "," + imm by {
      RenderJal(rd, imm);
    }
    SelectRendered("jal", [rd, imm]);
  }

  /** The R-type builders: one word, with the builder's funct3 and funct7. */
  lemma BuildRType(b: Builder, caps: seq<string>, mnemonic: string)
    requires (b == Add || b == Sub || b == Slt) && CapsFit(Tokens(RTypeOps), caps)
    ensures |caps| == 3 && IsDigits(caps[0]) && IsDigits(caps[1]) && IsDigits(caps[2])
    ensures Build(b, caps, mnemonic)
      == Ok(BuildR(if b == Slt then Op.FUNCT3_SLT else Op.FUNCT3_ADD_SUB,
                   if b == Sub then Op.FUNCT7_SUB else Op.FUNCT7_ADD, caps[0], caps[1], caps[2]))
  {
    CapsOf(RTypeOps, caps);
  }

  /** The R-type builders make the R-type word from the captures they were selected with. */
  lemma ParseRWord(mnemonic: string, ops: string, b: Builder, rd: string, rs1: string, rs2: string)
    requires b == Add || b == Sub || b == Slt
    requires Select(mnemonic, ops) == Ok((b, [rd, rs1, rs2]))
    ensures IsDigits(rd) && IsDigits(rs1) && IsDigits(rs2)
    ensures ParseOperation(mnemonic, ops)
      == Ok(BuildR(if b == Slt then Op.FUNCT3_SLT else Op.FUNCT3_ADD_SUB,
                   if b == Sub then Op.FUNCT7_SUB else Op.FUNCT7_ADD, rd, rs1, rs2))
  {
    ParseSelected(mnemonic, ops, b, [rd, rs1, rs2]);
    BuildRType(b, [rd, rs1, rs2], mnemonic);
  }

  /** add, sub and slt on `x<rd>,x<rs1>,x<rs2>` give the R-type word with
      those registers and the mnemonic's funct3 and funct7. */
  lemma ParseRType(mnemonic: string, rd: string, rs1: string, rs2: string)
    requires mnemonic in {"add", "sub", "slt"} && IsDigits(rd) && IsDigits(rs1) && IsDigits(rs2)
    ensures var r := ParseOperation(mnemonic, "x" + rd + ",x" + rs1 + ",x" + rs2);
      r.Ok? && Opcode(r.value) == Op.OPCODE_R_TYPE
      && Rd(r.value) == RegField(rd) && Rs1(r.value) == RegField(rs1) && Rs2(r.value) == RegField(rs2)
      && Funct3(r.value) == (if mnemonic == "slt" then Op.FUNCT3_SLT else Op.FUNCT3_ADD_SUB)
      && Funct7(r.value) == (if mnemonic == "sub" then Op.FUNCT7_SUB else Op.FUNCT7_ADD)
  {
    var ops := "x" + rd + ",x" + rs1 + ",x" + rs2;
    var b := if mnemonic == "add" then Add else if mnemonic == "sub" then Sub else Slt;
    assert Select(mnemonic, ops) == Ok((b, [rd, rs1, rs2])) by {
      SelectR(mnemonic, rd, rs1, rs2);
    }
    ParseRWord(mnemonic, ops, b, rd, rs1, rs2);
    var f3 := if mnemonic == "slt" then Op.FUNCT3_SLT else Op.FUNCT3_ADD_SUB;
    var f7 := if mnemonic == "sub" then Op.FUNCT7_SUB else Op.FUNCT7_ADD;
    assert f3 & 0x7 == f3 && f7 & 0x7F == f7;
  }

  /** addi on `x<rd>,x<rs1>,<imm>` is the addi builder on those captures. */
  lemma ParseAddi(rd: string, rs1: string, imm: string)
    requires IsDigits(rd) && IsDigits(rs1) && IsSignedDigits(imm)
    ensures ParseOperation("addi", "x" + rd + ",x" + rs1 + "," + imm)
      == BuildImmI(Op.OPCODE_I_TYPE, Op.FUNCT3_ADDI, "addi", rd, rs1, imm)
  {
    SelectRegRegImm("addi", rd, rs1, imm);
    ParseSelected("addi", "x" + rd + ",x" + rs1 + "," + imm, Addi, [rd, rs1, imm]);
  }

  /** jalr and lw build the I-type word from their captures, the base register last. */
  lemma ParseImmWord(mnemonic: string, ops: string, b: Builder, rd: string, imm: string, rs1: string)
    requires (b == Jalr || b == Lw) && IsDigits(rd) && IsSignedDigits(imm) && IsDigits(rs1)
    requires Select(mnemonic, ops) == Ok((b, [rd, imm, rs1]))
    ensures ParseOperation(mnemonic, ops)
      == if b == Jalr then BuildImmI(Op.OPCODE_JALR, Op.FUNCT3_JALR, "jalr", rd, rs1, imm)
         else BuildImmI(Op.OPCODE_LOAD, Op.FUNCT3_LW, "lw", rd, rs1, imm)
  {
    ParseSelected(mnemonic, ops, b, [rd, imm, rs1]);
  }

  /** jalr and lw on `x<rd>,<imm>(x<rs1>)` are their builders, rd first and rs1 last. */
  lemma ParseJalrLw(mnemonic: string, rd: string, imm: string, rs1: string)
    requires mnemonic in {"jalr", "lw"} && IsDigits(rd) && IsSignedDigits(imm) && IsDigits(rs1)
    ensures ParseOperation(mnemonic, "x" + rd + "," + imm + "(x" + rs1 + ")")
      == if mnemonic == "jalr" then BuildImmI(Op.OPCODE_JALR, Op.FUNCT3_JALR, "jalr", rd, rs1, imm)
         else BuildImmI(Op.OPCODE_LOAD, Op.FUNCT3_LW, "lw", rd, rs1, imm)
  {
    var ops := "x" + rd + "," + imm + "(x" + rs1 + ")";
    var b := if mnemonic == "jalr" then Jalr else Lw;
    assert Select(mnemonic, ops) == Ok((b, [rd, imm, rs1])) by {
      SelectMem(mnemonic, rd, imm, rs1);
    }
    ParseImmWord(mnemonic, ops, b, rd, imm, rs1);
  }

  /** beq, bne and blt on `x<rs1>,x<rs2>,<imm>` are the branch builder. */
  lemma ParseBranch(mnemonic: string, rs1: string, rs2: string, imm: string)
    requires mnemonic in {"beq", "bne", "blt"} && IsDigits(rs1) && IsDigits(rs2) && IsSignedDigits(imm)
    ensures ParseOperation(mnemonic, "x" + rs1 + ",x" + rs2 + "," + imm) == BuildBranch(mnemonic, rs1, rs2, imm)
    ensures BranchFunct3(mnemonic) == if mnemonic == "beq" then Op.FUNCT3_BEQ
      else if mnemonic == "bne" then Op.FUNCT3_BNE else Op.FUNCT3_SLT
  {
    var ops := "x" + rs1 + ",x" + rs2 + "," + imm;
    assert Select(mnemonic, ops) == Ok((Branch, [rs1, rs2, imm])) by {
      assert BuilderOf(mnemonic) == Branch;
      SelectRegRegImm(mnemonic, rs1, rs2, imm);
    }
    ParseBranchWord(mnemonic, ops, rs1, rs2, imm);
  }

  /** The branch builder makes the B-type word from the captures it was selected with. */
  lemma ParseBranchWord(mnemonic: string, ops: string, rs1: string, rs2: string, imm: string)
    requires IsDigits(rs1) && IsDigits(rs2) && IsSignedDigits(imm)
    requires Select(mnemonic, ops) == Ok((Branch, [rs1, rs2, imm]))
    ensures ParseOperation(mnemonic, ops) == BuildBranch(mnemonic, rs1, rs2, imm)
  {
    ParseSelected(mnemonic, ops, Branch, [rs1, rs2, imm]);
  }

  /** jal on `x<rd>,<imm>` is the jal builder. */
  lemma ParseJal(rd: string, imm: string)
    requires IsDigits(rd) && IsSignedDigits(imm)
    ensures ParseOperation("jal", "x" + rd + "," + imm) == BuildJal(rd, imm)
  {
    SelectJal(rd, imm);
    ParseSelected("jal", "x" + rd + "," + imm, Jal, [rd, imm]);
  }

  /** slli on `x<rd>,x<rs1>,<shamt>` (an unsigned shift amount) is the slli builder. */
  lemma ParseSlli(rd: string, rs1: string, shamt: string)
    requires IsDigits(rd) && IsDigits(rs1) && IsDigits(shamt)
    ensures ParseOperation("slli", "x" + rd + ",x" + rs1 + "," + shamt) == BuildSlli(rd, rs1, shamt)
  {
    SelectRegRegImm("slli", rd, rs1, shamt);
    ParseSelected("slli", "x" + rd + ",x" + rs1 + "," + shamt, Slli, [rd, rs1, shamt]);
  }

  /** sw on `x<rs2>,<imm>(x<rs1>)` is the store builder: the first register is the source. */
  lemma ParseSw(rs2: string, imm: string, rs1: string)
    requires IsDigits(rs2) && IsSignedDigits(imm) && IsDigits(rs1)
    ensures ParseOperation("sw", "x" + rs2 + "," + imm + "(x" + rs1 + ")") == BuildStore(rs2, imm, rs1)
  {
    SelectMem("sw", rs2, imm, rs1);
    ParseSelected("sw", "x" + rs2 + "," + imm + "(x" + rs1 + ")", Sw, [rs2, imm, rs1]);
  }
}
