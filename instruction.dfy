/** A 32-bit RV32I instruction word: field getters and setters, the I, S,
    B and J immediate formats, and the format letter of an opcode.

    Go's setters update the receiver through a pointer; here each setter is
    a function from the old word to the new one. */
module AsmInstruction {
  import opened Word32
  import Op = AsmOpcode

  type Instruction = bv32

  // Field getters: the field shifted down and masked to its width.

  function Opcode(i: Instruction): (r: Op.Opcode)
    ensures r <= 0x7F
  { i & 0x7F }

  function Rd(i: Instruction): (r: bv32)
    ensures r <= 0x1F
  { (i >> 7) & 0x1F }

  function Funct3(i: Instruction): (r: bv32)
    ensures r <= 0x7
  { (i >> 12) & 0x7 }

  function Rs1(i: Instruction): (r: bv32)
    ensures r <= 0x1F
  { (i >> 15) & 0x1F }

  function Rs2(i: Instruction): (r: bv32)
    ensures r <= 0x1F
  { (i >> 20) & 0x1F }

  function Funct7(i: Instruction): (r: bv32)
    ensures r <= 0x7F
  { (i >> 25) & 0x7F }

  // Field setters: clear the field, then put in the value masked to the field
  // width. Each keeps every bit outside its field, and its getter then returns
  // the value masked.

  function SetOpcode(i: Instruction, opcode: Op.Opcode): (r: Instruction)
    ensures r & !0x0000_007F == i & !0x0000_007F
    ensures Opcode(r) == opcode & 0x7F
  { (i & !0x7F) | (opcode & 0x7F) }

  function SetRd(i: Instruction, rd: bv32): (r: Instruction)
    ensures r & !0x0000_0F80 == i & !0x0000_0F80
    ensures Rd(r) == rd & 0x1F
  { (i & !(0x1F << 7)) | ((rd & 0x1F) << 7) }

  function SetFunct3(i: Instruction, funct3: bv32): (r: Instruction)
    ensures r & !0x0000_7000 == i & !0x0000_7000
    ensures Funct3(r) == funct3 & 0x7
  { (i & !(0x7 << 12)) | ((funct3 & 0x7) << 12) }

  function SetRs1(i: Instruction, rs1: bv32): (r: Instruction)
    ensures r & !0x000F_8000 == i & !0x000F_8000
    ensures Rs1(r) == rs1 & 0x1F
  { (i & !(0x1F << 15)) | ((rs1 & 0x1F) << 15) }

  function SetRs2(i: Instruction, rs2: bv32): (r: Instruction)
    ensures r & !0x01F0_0000 == i & !0x01F0_0000
    ensures Rs2(r) == rs2 & 0x1F
  { (i & !(0x1F << 20)) | ((rs2 & 0x1F) << 20) }

  function SetFunct7(i: Instruction, funct7: bv32): (r: Instruction)
    ensures r & !0xFE00_0000 == i & !0xFE00_0000
    ensures Funct7(r) == funct7 & 0x7F
  { (i & !(0x7F << 25)) | ((funct7 & 0x7F) << 25) }

  /** The six fixed fields, to state their laws once. */
  datatype Field = OpcodeField | RdField | Funct3Field | Rs1Field | Rs2Field | Funct7Field

  function Get(i: Instruction, f: Field): bv32 {
    match f
    case OpcodeField => Opcode(i)
    case RdField => Rd(i)
    case Funct3Field => Funct3(i)
    case Rs1Field => Rs1(i)
    case Rs2Field => Rs2(i)
    case Funct7Field => Funct7(i)
  }

  function Set(i: Instruction, f: Field, v: bv32): Instruction {
    match f
    case OpcodeField => SetOpcode(i, v)
    case RdField => SetRd(i, v)
    case Funct3Field => SetFunct3(i, v)
    case Rs1Field => SetRs1(i, v)
    case Rs2Field => SetRs2(i, v)
    case Funct7Field => SetFunct7(i, v)
  }

  /** The six fields cover the whole word, so a word is determined by them. */
  lemma Ext(a: Instruction, b: Instruction)
    requires Opcode(a) == Opcode(b) && Rd(a) == Rd(b) && Funct3(a) == Funct3(b)
    requires Rs1(a) == Rs1(b) && Rs2(a) == Rs2(b) && Funct7(a) == Funct7(b)
    ensures a == b
  {}

  lemma OpcodeSetGet(i: Instruction)
    ensures SetOpcode(i, Opcode(i)) == i
  {}

  lemma RdSetGet(i: Instruction)
    ensures SetRd(i, Rd(i)) == i
  {}

  lemma Funct3SetGet(i: Instruction)
    ensures SetFunct3(i, Funct3(i)) == i
  {}

  lemma Rs1SetGet(i: Instruction)
    ensures SetRs1(i, Rs1(i)) == i
  {}

  lemma Rs2SetGet(i: Instruction)
    ensures SetRs2(i, Rs2(i)) == i
  {}

  lemma Funct7SetGet(i: Instruction)
    ensures SetFunct7(i, Funct7(i)) == i
  {}

  lemma RdOfSetOpcode(i: Instruction, v: bv32)
    ensures Rd(SetOpcode(i, v)) == Rd(i)
  {}

  lemma Funct3OfSetOpcode(i: Instruction, v: bv32)
    ensures Funct3(SetOpcode(i, v)) == Funct3(i)
  {}

  lemma Rs1OfSetOpcode(i: Instruction, v: bv32)
    ensures Rs1(SetOpcode(i, v)) == Rs1(i)
  {}

  lemma Rs2OfSetOpcode(i: Instruction, v: bv32)
    ensures Rs2(SetOpcode(i, v)) == Rs2(i)
  {}

  lemma Funct7OfSetOpcode(i: Instruction, v: bv32)
    ensures Funct7(SetOpcode(i, v)) == Funct7(i)
  {}

  /** SetOpcode leaves the other five fields as they were. */
  lemma OpcodeOthers(i: Instruction, v: bv32)
    ensures Rd(SetOpcode(i, v)) == Rd(i)
    ensures Funct3(SetOpcode(i, v)) == Funct3(i)
    ensures Rs1(SetOpcode(i, v)) == Rs1(i)
    ensures Rs2(SetOpcode(i, v)) == Rs2(i)
    ensures Funct7(SetOpcode(i, v)) == Funct7(i)
  {
    RdOfSetOpcode(i, v);
    Funct3OfSetOpcode(i, v);
    Rs1OfSetOpcode(i, v);
    Rs2OfSetOpcode(i, v);
    Funct7OfSetOpcode(i, v);
  }

  /** SetRd leaves the other five fields as they were. */
  lemma RdOthers(i: Instruction, v: bv32)
    ensures Opcode(SetRd(i, v)) == Opcode(i)
    ensures Funct3(SetRd(i, v)) == Funct3(i)
    ensures Rs1(SetRd(i, v)) == Rs1(i)
    ensures Rs2(SetRd(i, v)) == Rs2(i)
    ensures Funct7(SetRd(i, v)) == Funct7(i)
  {}

  /** SetFunct3 leaves the other five fields as they were. */
  lemma Funct3Others(i: Instruction, v: bv32)
    ensures Opcode(SetFunct3(i, v)) == Opcode(i)
    ensures Rd(SetFunct3(i, v)) == Rd(i)
    ensures Rs1(SetFunct3(i, v)) == Rs1(i)
    ensures Rs2(SetFunct3(i, v)) == Rs2(i)
    ensures Funct7(SetFunct3(i, v)) == Funct7(i)
  {}

  /** SetRs1 leaves the other five fields as they were. */
  lemma Rs1Others(i: Instruction, v: bv32)
    ensures Opcode(SetRs1(i, v)) == Opcode(i)
    ensures Rd(SetRs1(i, v)) == Rd(i)
    ensures Funct3(SetRs1(i, v)) == Funct3(i)
    ensures Rs2(SetRs1(i, v)) == Rs2(i)
    ensures Funct7(SetRs1(i, v)) == Funct7(i)
  {}

  /** SetRs2 leaves the other five fields as they were. */
  lemma Rs2Others(i: Instruction, v: bv32)
    ensures Opcode(SetRs2(i, v)) == Opcode(i)
    ensures Rd(SetRs2(i, v)) == Rd(i)
    ensures Funct3(SetRs2(i, v)) == Funct3(i)
    ensures Rs1(SetRs2(i, v)) == Rs1(i)
    ensures Funct7(SetRs2(i, v)) == Funct7(i)
  {}

  /** SetFunct7 leaves the other five fields as they were. */
  lemma Funct7Others(i: Instruction, v: bv32)
    ensures Opcode(SetFunct7(i, v)) == Opcode(i)
    ensures Rd(SetFunct7(i, v)) == Rd(i)
    ensures Funct3(SetFunct7(i, v)) == Funct3(i)
    ensures Rs1(SetFunct7(i, v)) == Rs1(i)
    ensures Rs2(SetFunct7(i, v)) == Rs2(i)
  {}

  lemma OpcodeSetSet(i: Instruction, v: bv32, w: bv32)
    ensures SetOpcode(SetOpcode(i, v), w) == SetOpcode(i, w)
  {
    OpcodeOthers(i, v); OpcodeOthers(i, w); OpcodeOthers(SetOpcode(i, v), w);
    Ext(SetOpcode(SetOpcode(i, v), w), SetOpcode(i, w));
  }

  lemma RdSetSet(i: Instruction, v: bv32, w: bv32)
    ensures SetRd(SetRd(i, v), w) == SetRd(i, w)
  {
    RdOthers(i, v); RdOthers(i, w); RdOthers(SetRd(i, v), w);
    Ext(SetRd(SetRd(i, v), w), SetRd(i, w));
  }

  lemma Funct3SetSet(i: Instruction, v: bv32, w: bv32)
    ensures SetFunct3(SetFunct3(i, v), w) == SetFunct3(i, w)
  {
    Funct3Others(i, v); Funct3Others(i, w); Funct3Others(SetFunct3(i, v), w);
    Ext(SetFunct3(SetFunct3(i, v), w), SetFunct3(i, w));
  }

  lemma Rs1SetSet(i: Instruction, v: bv32, w: bv32)
    ensures SetRs1(SetRs1(i, v), w) == SetRs1(i, w)
  {
    Rs1Others(i, v); Rs1Others(i, w); Rs1Others(SetRs1(i, v), w);
    Ext(SetRs1(SetRs1(i, v), w), SetRs1(i, w));
  }

  lemma Rs2SetSet(i: Instruction, v: bv32, w: bv32)
    ensures SetRs2(SetRs2(i, v), w) == SetRs2(i, w)
  {
    Rs2Others(i, v); Rs2Others(i, w); Rs2Others(SetRs2(i, v), w);
    Ext(SetRs2(SetRs2(i, v), w), SetRs2(i, w));
  }

  lemma Funct7SetSet(i: Instruction, v: bv32, w: bv32)
    ensures SetFunct7(SetFunct7(i, v), w) == SetFunct7(i, w)
  {
    Funct7Others(i, v); Funct7Others(i, w); Funct7Others(SetFunct7(i, v), w);
    Ext(SetFunct7(SetFunct7(i, v), w), SetFunct7(i, w));
  }

  lemma CommuteOpcodeRd(i: Instruction, v: bv32, w: bv32)
    ensures SetRd(SetOpcode(i, v), w) == SetOpcode(SetRd(i, w), v)
  {
    OpcodeOthers(i, v); RdOthers(i, w);
    RdOthers(SetOpcode(i, v), w); OpcodeOthers(SetRd(i, w), v);
    Ext(SetRd(SetOpcode(i, v), w), SetOpcode(SetRd(i, w), v));
  }

  lemma CommuteOpcodeFunct3(i: Instruction, v: bv32, w: bv32)
    ensures SetFunct3(SetOpcode(i, v), w) == SetOpcode(SetFunct3(i, w), v)
  {
    OpcodeOthers(i, v); Funct3Others(i, w);
    Funct3Others(SetOpcode(i, v), w); OpcodeOthers(SetFunct3(i, w), v);
    Ext(SetFunct3(SetOpcode(i, v), w), SetOpcode(SetFunct3(i, w), v));
  }

  lemma CommuteOpcodeRs1(i: Instruction, v: bv32, w: bv32)
    ensures SetRs1(SetOpcode(i, v), w) == SetOpcode(SetRs1(i, w), v)
  {
    OpcodeOthers(i, v); Rs1Others(i, w);
    Rs1Others(SetOpcode(i, v), w); OpcodeOthers(SetRs1(i, w), v);
    Ext(SetRs1(SetOpcode(i, v), w), SetOpcode(SetRs1(i, w), v));
  }

  lemma CommuteOpcodeRs2(i: Instruction, v: bv32, w: bv32)
    ensures SetRs2(SetOpcode(i, v), w) == SetOpcode(SetRs2(i, w), v)
  {
    OpcodeOthers(i, v); Rs2Others(i, w);
    Rs2Others(SetOpcode(i, v), w); OpcodeOthers(SetRs2(i, w), v);
    Ext(SetRs2(SetOpcode(i, v), w), SetOpcode(SetRs2(i, w), v));
  }

  lemma CommuteOpcodeFunct7(i: Instruction, v: bv32, w: bv32)
    ensures SetFunct7(SetOpcode(i, v), w) == SetOpcode(SetFunct7(i, w), v)
  {
    OpcodeOthers(i, v); Funct7Others(i, w);
    Funct7Others(SetOpcode(i, v), w); OpcodeOthers(SetFunct7(i, w), v);
    Ext(SetFunct7(SetOpcode(i, v), w), SetOpcode(SetFunct7(i, w), v));
  }

  lemma CommuteRdFunct3(i: Instruction, v: bv32, w: bv32)
    ensures SetFunct3(SetRd(i, v), w) == SetRd(SetFunct3(i, w), v)
  {
    RdOthers(i, v); Funct3Others(i, w);
    Funct3Others(SetRd(i, v), w); RdOthers(SetFunct3(i, w), v);
    Ext(SetFunct3(SetRd(i, v), w), SetRd(SetFunct3(i, w), v));
  }

  lemma CommuteRdRs1(i: Instruction, v: bv32, w: bv32)
    ensures SetRs1(SetRd(i, v), w) == SetRd(SetRs1(i, w), v)
  {
    RdOthers(i, v); Rs1Others(i, w);
    Rs1Others(SetRd(i, v), w); RdOthers(SetRs1(i, w), v);
    Ext(SetRs1(SetRd(i, v), w), SetRd(SetRs1(i, w), v));
  }

  lemma CommuteRdRs2(i: Instruction, v: bv32, w: bv32)
    ensures SetRs2(SetRd(i, v), w) == SetRd(SetRs2(i, w), v)
  {
    RdOthers(i, v); Rs2Others(i, w);
    Rs2Others(SetRd(i, v), w); RdOthers(SetRs2(i, w), v);
    Ext(SetRs2(SetRd(i, v), w), SetRd(SetRs2(i, w), v));
  }

  lemma CommuteRdFunct7(i: Instruction, v: bv32, w: bv32)
    ensures SetFunct7(SetRd(i, v), w) == SetRd(SetFunct7(i, w), v)
  {
    RdOthers(i, v); Funct7Others(i, w);
    Funct7Others(SetRd(i, v), w); RdOthers(SetFunct7(i, w), v);
    Ext(SetFunct7(SetRd(i, v), w), SetRd(SetFunct7(i, w), v));
  }

  lemma CommuteFunct3Rs1(i: Instruction, v: bv32, w: bv32)
    ensures SetRs1(SetFunct3(i, v), w) == SetFunct3(SetRs1(i, w), v)
  {
    Funct3Others(i, v); Rs1Others(i, w);
    Rs1Others(SetFunct3(i, v), w); Funct3Others(SetRs1(i, w), v);
    Ext(SetRs1(SetFunct3(i, v), w), SetFunct3(SetRs1(i, w), v));
  }

  lemma CommuteFunct3Rs2(i: Instruction, v: bv32, w: bv32)
    ensures SetRs2(SetFunct3(i, v), w) == SetFunct3(SetRs2(i, w), v)
  {
    Funct3Others(i, v); Rs2Others(i, w);
    Rs2Others(SetFunct3(i, v), w); Funct3Others(SetRs2(i, w), v);
    Ext(SetRs2(SetFunct3(i, v), w), SetFunct3(SetRs2(i, w), v));
  }

  lemma CommuteFunct3Funct7(i: Instruction, v: bv32, w: bv32)
    ensures SetFunct7(SetFunct3(i, v), w) == SetFunct3(SetFunct7(i, w), v)
  {
    Funct3Others(i, v); Funct7Others(i, w);
    Funct7Others(SetFunct3(i, v), w); Funct3Others(SetFunct7(i, w), v);
    Ext(SetFunct7(SetFunct3(i, v), w), SetFunct3(SetFunct7(i, w), v));
  }

  lemma CommuteRs1Rs2(i: Instruction, v: bv32, w: bv32)
    ensures SetRs2(SetRs1(i, v), w) == SetRs1(SetRs2(i, w), v)
  {
    Rs1Others(i, v); Rs2Others(i, w);
    Rs2Others(SetRs1(i, v), w); Rs1Others(SetRs2(i, w), v);
    Ext(SetRs2(SetRs1(i, v), w), SetRs1(SetRs2(i, w), v));
  }

  lemma CommuteRs1Funct7(i: Instruction, v: bv32, w: bv32)
    ensures SetFunct7(SetRs1(i, v), w) == SetRs1(SetFunct7(i, w), v)
  {
    Rs1Others(i, v); Funct7Others(i, w);
    Funct7Others(SetRs1(i, v), w); Rs1Others(SetFunct7(i, w), v);
    Ext(SetFunct7(SetRs1(i, v), w), SetRs1(SetFunct7(i, w), v));
  }

  lemma CommuteRs2Funct7(i: Instruction, v: bv32, w: bv32)
    ensures SetFunct7(SetRs2(i, v), w) == SetRs2(SetFunct7(i, w), v)
  {
    Rs2Others(i, v); Funct7Others(i, w);
    Funct7Others(SetRs2(i, v), w); Rs2Others(SetFunct7(i, w), v);
    Ext(SetFunct7(SetRs2(i, v), w), SetRs2(SetFunct7(i, w), v));
  }

  /** The later of two writes to one field wins. */
  lemma {:induction false} SetSet(i: Instruction, f: Field, v: bv32, w: bv32)
    ensures Set(Set(i, f, v), f, w) == Set(i, f, w)
  {
    match f
    case OpcodeField => OpcodeSetSet(i, v, w);
    case RdField => RdSetSet(i, v, w);
    case Funct3Field => Funct3SetSet(i, v, w);
    case Rs1Field => Rs1SetSet(i, v, w);
    case Rs2Field => Rs2SetSet(i, v, w);
    case Funct7Field => Funct7SetSet(i, v, w);
  }

  /** Writing back the value a getter read changes nothing. */
  lemma {:induction false} SetGet(i: Instruction, f: Field)
    ensures Set(i, f, Get(i, f)) == i
  {
    match f
    case OpcodeField => OpcodeSetGet(i);
    case RdField => RdSetGet(i);
    case Funct3Field => Funct3SetGet(i);
    case Rs1Field => Rs1SetGet(i);
    case Rs2Field => Rs2SetGet(i);
    case Funct7Field => Funct7SetGet(i);
  }

  /** A setter leaves every other field's getter unchanged. */
  lemma {:induction false} GetOther(i: Instruction, f: Field, g: Field, v: bv32)
    requires f != g
    ensures Get(Set(i, g, v), f) == Get(i, f)
  {
    match g
    case OpcodeField => OpcodeOthers(i, v);
    case RdField => RdOthers(i, v);
    case Funct3Field => Funct3Others(i, v);
    case Rs1Field => Rs1Others(i, v);
    case Rs2Field => Rs2Others(i, v);
    case Funct7Field => Funct7Others(i, v);
  }

  /** Setters of different fields commute. */
  lemma {:induction false} SetCommute(i: Instruction, f: Field, g: Field, v: bv32, w: bv32)
    requires f != g
    ensures Set(Set(i, f, v), g, w) == Set(Set(i, g, w), f, v)
  {
    match f
    case OpcodeField => {
      match g
      case OpcodeField => assert false;
      case RdField => CommuteOpcodeRd(i, v, w);
      case Funct3Field => CommuteOpcodeFunct3(i, v, w);
      case Rs1Field => CommuteOpcodeRs1(i, v, w);
      case Rs2Field => CommuteOpcodeRs2(i, v, w);
      case Funct7Field => CommuteOpcodeFunct7(i, v, w);
    }
    case RdField => {
      match g
      case OpcodeField => CommuteOpcodeRd(i, w, v);
      case RdField => assert false;
      case Funct3Field => CommuteRdFunct3(i, v, w);
      case Rs1Field => CommuteRdRs1(i, v, w);
      case Rs2Field => CommuteRdRs2(i, v, w);
      case Funct7Field => CommuteRdFunct7(i, v, w);
    }
    case Funct3Field => {
      match g
      case OpcodeField => CommuteOpcodeFunct3(i, w, v);
      case RdField => CommuteRdFunct3(i, w, v);
      case Funct3Field => assert false;
      case Rs1Field => CommuteFunct3Rs1(i, v, w);
      case Rs2Field => CommuteFunct3Rs2(i, v, w);
      case Funct7Field => CommuteFunct3Funct7(i, v, w);
    }
    case Rs1Field => {
      match g
      case OpcodeField => CommuteOpcodeRs1(i, w, v);
      case RdField => CommuteRdRs1(i, w, v);
      case Funct3Field => CommuteFunct3Rs1(i, w, v);
      case Rs1Field => assert false;
      case Rs2Field => CommuteRs1Rs2(i, v, w);
      case Funct7Field => CommuteRs1Funct7(i, v, w);
    }
    case Rs2Field => {
      match g
      case OpcodeField => CommuteOpcodeRs2(i, w, v);
      case RdField => CommuteRdRs2(i, w, v);
      case Funct3Field => CommuteFunct3Rs2(i, w, v);
      case Rs1Field => CommuteRs1Rs2(i, w, v);
      case Rs2Field => assert false;
      case Funct7Field => CommuteRs2Funct7(i, v, w);
    }
    case Funct7Field => {
      match g
      case OpcodeField => CommuteOpcodeFunct7(i, w, v);
      case RdField => CommuteRdFunct7(i, w, v);
      case Funct3Field => CommuteFunct3Funct7(i, w, v);
      case Rs1Field => CommuteRs1Funct7(i, w, v);
      case Rs2Field => CommuteRs2Funct7(i, w, v);
      case Funct7Field => assert false;
    }
  }

  // Immediates. Each getter sign-extends a bit pattern, then reads it as an int32.

  function ImmIBits(i: Instruction): bv32 {
    var imm := i >> 20;
    if imm & 0x800 != 0 then imm | !0xFFF else imm
  }

  function ImmSBits(i: Instruction): bv32 {
    var imm := ((i >> 7) & 0x1F) | (((i >> 25) & 0x7F) << 5);
    if imm & 0x800 != 0 then imm | !0xFFF else imm
  }

  function ImmBBits(i: Instruction): bv32 {
    var imm := (((i >> 31) & 0x1) << 12) | (((i >> 7) & 0x1) << 11) | (((i >> 25) & 0x3F) << 5) | (((i >> 8) & 0xF) << 1);
    if imm & 0x1000 != 0 then imm | !0x1FFF else imm
  }

  function ImmJBits(i: Instruction): bv32 {
    var imm := (((i >> 31) & 0x1) << 20) | (((i >> 12) & 0xFF) << 12) | (((i >> 20) & 0x1) << 11) | (((i >> 21) & 0x3FF) << 1);
    if imm & 0x10_0000 != 0 then imm | !0xF_FFFF else imm
  }

  function ImmI(i: Instruction): Int32 { Signed(ImmIBits(i)) }
  function ImmS(i: Instruction): Int32 { Signed(ImmSBits(i)) }
  function ImmB(i: Instruction): Int32 { Signed(ImmBBits(i)) }
  function ImmJ(i: Instruction): Int32 { Signed(ImmJBits(i)) }

  // Immediate setters on bit patterns, as the Go code computes on `uint32(imm)`.

  function PutImmI(i: Instruction, u: bv32): Instruction {
    (i & !(0xFFF << 20)) | ((u & 0xFFF) << 20)
  }

  function PutImmS(i: Instruction, u: bv32): Instruction {
    var ui := i & !(0x1F << 7) & !(0x7F << 25);
    ui | ((u & 0x1F) << 7) | (((u >> 5) & 0x7F) << 25)
  }

  function PutImmB(i: Instruction, u: bv32): Instruction {
    var ui := i & !(1 << 31) & !(1 << 7) & !(0x3F << 25) & !(0xF << 8);
    ui | (((u >> 12) & 0x1) << 31) | (((u >> 11) & 0x1) << 7) | (((u >> 5) & 0x3F) << 25) | (((u >> 1) & 0xF) << 8)
  }

  function PutImmJ(i: Instruction, u: bv32): Instruction {
    var ui := i & !(1 << 31) & !(0xFF << 12) & !(1 << 20) & !(0x3FF << 21);
    ui | (((u >> 20) & 0x1) << 31) | (((u >> 12) & 0xFF) << 12) | (((u >> 11) & 0x1) << 20) | (((u >> 1) & 0x3FF) << 21)
  }

  function SetImmI(i: Instruction, imm: Int32): Instruction { PutImmI(i, FromInt(imm)) }
  function SetImmS(i: Instruction, imm: Int32): Instruction { PutImmS(i, FromInt(imm)) }
  function SetImmB(i: Instruction, imm: Int32): Instruction { PutImmB(i, FromInt(imm)) }
  function SetImmJ(i: Instruction, imm: Int32): Instruction { PutImmJ(i, FromInt(imm)) }

  /** The bit patterns of the int32 values in [-k, k - 1], for k = 2^11, 2^12, 2^20. */
  predicate FitsI(u: bv32) { u < 0x800 || u >= 0xFFFF_F800 }
  predicate FitsB(u: bv32) { u < 0x1000 || u >= 0xFFFF_F000 }
  predicate FitsJ(u: bv32) { u < 0x10_0000 || u >= 0xFFF0_0000 }

  // Round trips on bit patterns.

  lemma ImmIBitsPut(i: Instruction, u: bv32)
    requires FitsI(u)
    ensures ImmIBits(PutImmI(i, u)) == u
  {}

  lemma ImmSBitsPut(i: Instruction, u: bv32)
    requires FitsI(u)
    ensures ImmSBits(PutImmS(i, u)) == u
  {}

  lemma ImmBBitsPut(i: Instruction, u: bv32)
    requires FitsB(u)
    ensures ImmBBits(PutImmB(i, u)) == u & !1
  {}

  lemma ImmJBitsPut(i: Instruction, u: bv32)
    requires FitsJ(u)
    ensures ImmJBits(PutImmJ(i, u)) == u & !1
  {
    if u < 0x10_0000 {
      ImmJBitsPutPos(i, u);
    } else {
      ImmJBitsPutNeg(i, u);
    }
  }

  lemma ImmJBitsPutPos(i: Instruction, u: bv32)
    requires u < 0x10_0000
    ensures ImmJBits(PutImmJ(i, u)) == u & !1
  {}

  lemma ImmJBitsPutNeg(i: Instruction, u: bv32)
    requires u >= 0xFFF0_0000
    ensures ImmJBits(PutImmJ(i, u)) == u & !1
  {}

  // The decoded patterns always fit their format; B and J patterns are even.

  lemma ImmIBitsFit(i: Instruction) ensures FitsI(ImmIBits(i)) {}
  lemma ImmSBitsFit(i: Instruction) ensures FitsI(ImmSBits(i)) {}
  lemma ImmBBitsFit(i: Instruction) ensures FitsB(ImmBBits(i)) {}
  lemma ImmJBitsFit(i: Instruction) ensures FitsJ(ImmJBits(i)) {}
  lemma ImmBBitsEven(i: Instruction) ensures ImmBBits(i) & 1 == 0 {}
  lemma ImmJBitsEven(i: Instruction) ensures ImmJBits(i) & 1 == 0 {}

  // Bridges between the value ranges and the patterns that fit.

  /** The pattern of an integer in [-k, k - 1] lies below k or at 2^32 - k and above. */
  lemma {:induction false} FitsOfRange(v: int, k: int, lo: bv32, hi: bv32)
    requires Unsigned(lo) == k && Unsigned(hi) == TWO32 - k && -k <= v < k
    ensures FromInt(v) < lo || FromInt(v) >= hi
  {
    UnsignedFromInt(v);
    UnsignedLt(FromInt(v), lo);
    UnsignedLt(FromInt(v), hi);
  }

  /** A pattern below k or at 2^32 - k and above stands for an int32 in [-k, k - 1]. */
  lemma {:induction false} RangeOfFits(u: bv32, k: int, lo: bv32, hi: bv32)
    requires Unsigned(lo) == k && Unsigned(hi) == TWO32 - k && k <= TWO31
    requires u < lo || u >= hi
    ensures -k <= Signed(u) < k
  {
    UnsignedLt(u, lo);
    UnsignedLt(u, hi);
    UnsignedLt(u, 0x8000_0000);
  }

  /** An even pattern stands for an even int32. */
  lemma {:induction false} EvenOfBit(u: bv32)
    requires u & 1 == 0
    ensures Signed(u) % 2 == 0
  {
    assert u & !1 == u;
    ClearLowBit(u);
  }

  lemma Consts()
    ensures Unsigned(0x800) == 0x800 && Unsigned(0xFFFF_F800) == TWO32 - 0x800
    ensures Unsigned(0x1000) == 0x1000 && Unsigned(0xFFFF_F000) == TWO32 - 0x1000
    ensures Unsigned(0x10_0000) == 0x10_0000 && Unsigned(0xFFF0_0000) == TWO32 - 0x10_0000
  {}

  // Round trips on values.

  /** An I immediate in [-2048, 2047] survives encoding and decoding. */
  lemma {:induction false} ImmIRoundTrip(i: Instruction, v: Int32)
    requires -2048 <= v <= 2047
    ensures ImmI(SetImmI(i, v)) == v
  {
    var u := FromInt(v);
    assert FitsI(u) by {
      Consts();
      FitsOfRange(v, 0x800, 0x800, 0xFFFF_F800);
    }
    assert ImmIBits(PutImmI(i, u)) == u by { ImmIBitsPut(i, u); }
    assert Signed(u) == v by { SignedFromInt(v); }
  }

  /** An S immediate in [-2048, 2047] survives encoding and decoding. */
  lemma {:induction false} ImmSRoundTrip(i: Instruction, v: Int32)
    requires -2048 <= v <= 2047
    ensures ImmS(SetImmS(i, v)) == v
  {
    var u := FromInt(v);
    assert FitsI(u) by {
      Consts();
      FitsOfRange(v, 0x800, 0x800, 0xFFFF_F800);
    }
    assert ImmSBits(PutImmS(i, u)) == u by { ImmSBitsPut(i, u); }
    assert Signed(u) == v by { SignedFromInt(v); }
  }

  /** A B immediate in [-4096, 4095] comes back with bit 0 cleared. */
  lemma {:induction false} ImmBRoundTrip(i: Instruction, v: Int32)
    requires -4096 <= v <= 4095
    ensures ImmB(SetImmB(i, v)) == v - v % 2
  {
    var u := FromInt(v);
    assert FitsB(u) by {
      Consts();
      FitsOfRange(v, 0x1000, 0x1000, 0xFFFF_F000);
    }
    assert ImmBBits(PutImmB(i, u)) == u & !1 by { ImmBBitsPut(i, u); }
    assert Signed(u & !1) == Signed(u) - Signed(u) % 2 by { ClearLowBit(u); }
    assert Signed(u) == v by { SignedFromInt(v); }
  }

  /** A J immediate in [-2^20, 2^20 - 1] comes back with bit 0 cleared. */
  lemma {:induction false} ImmJRoundTrip(i: Instruction, v: Int32)
    requires -0x10_0000 <= v <= 0xF_FFFF
    ensures ImmJ(SetImmJ(i, v)) == v - v % 2
  {
    var u := FromInt(v);
    assert FitsJ(u) by {
      Consts();
      FitsOfRange(v, 0x10_0000, 0x10_0000, 0xFFF0_0000);
    }
    assert ImmJBits(PutImmJ(i, u)) == u & !1 by { ImmJBitsPut(i, u); }
    assert Signed(u & !1) == Signed(u) - Signed(u) % 2 by { ClearLowBit(u); }
    assert Signed(u) == v by { SignedFromInt(v); }
  }

  /** A decoded I immediate lies in [-2048, 2047]. */
  lemma {:induction false} ImmIRange(i: Instruction)
    ensures -2048 <= ImmI(i) <= 2047
  {
    Consts();
    ImmIBitsFit(i);
    RangeOfFits(ImmIBits(i), 0x800, 0x800, 0xFFFF_F800);
  }

  /** A decoded S immediate lies in [-2048, 2047]. */
  lemma {:induction false} ImmSRange(i: Instruction)
    ensures -2048 <= ImmS(i) <= 2047
  {
    Consts();
    ImmSBitsFit(i);
    RangeOfFits(ImmSBits(i), 0x800, 0x800, 0xFFFF_F800);
  }

  /** A decoded B immediate is even and lies in [-4096, 4094]. */
  lemma {:induction false} ImmBRange(i: Instruction)
    ensures -4096 <= ImmB(i) <= 4094 && ImmB(i) % 2 == 0
  {
    assert -4096 <= ImmB(i) < 4096 by {
      Consts();
      ImmBBitsFit(i);
      RangeOfFits(ImmBBits(i), 0x1000, 0x1000, 0xFFFF_F000);
    }
    assert ImmB(i) % 2 == 0 by {
      ImmBBitsEven(i);
      EvenOfBit(ImmBBits(i));
    }
  }

  /** A decoded J immediate is even and lies in [-2^20, 2^20 - 2]. */
  lemma {:induction false} ImmJRange(i: Instruction)
    ensures -0x10_0000 <= ImmJ(i) <= 0xF_FFFE && ImmJ(i) % 2 == 0
  {
    assert -0x10_0000 <= ImmJ(i) < 0x10_0000 by {
      Consts();
      ImmJBitsFit(i);
      RangeOfFits(ImmJBits(i), 0x10_0000, 0x10_0000, 0xFFF0_0000);
    }
    assert ImmJ(i) % 2 == 0 by {
      ImmJBitsEven(i);
      EvenOfBit(ImmJBits(i));
    }
  }

  // Immediate setters change only their format's bits.

  lemma SetImmIFrame(i: Instruction, v: Int32)
    ensures SetImmI(i, v) & 0x000F_FFFF == i & 0x000F_FFFF
  {}

  lemma SetImmSFrame(i: Instruction, v: Int32)
    ensures SetImmS(i, v) & 0x01FF_F07F == i & 0x01FF_F07F
  {}

  lemma SetImmBFrame(i: Instruction, v: Int32)
    ensures SetImmB(i, v) & 0x01FF_F07F == i & 0x01FF_F07F
  {}

  lemma SetImmJFrame(i: Instruction, v: Int32)
    ensures SetImmJ(i, v) & 0x0000_0FFF == i & 0x0000_0FFF
  {}

  /** Words that agree on bits 0..19 agree on Opcode, Rd, Funct3 and Rs1. */
  lemma AgreeLow20(a: Instruction, b: Instruction)
    requires a & 0x000F_FFFF == b & 0x000F_FFFF
    ensures Opcode(a) == Opcode(b) && Rd(a) == Rd(b) && Funct3(a) == Funct3(b) && Rs1(a) == Rs1(b)
  {}

  /** Words that agree outside the S and B immediate bits agree on Opcode, Funct3, Rs1 and Rs2. */
  lemma AgreeOutsideImmS(a: Instruction, b: Instruction)
    requires a & 0x01FF_F07F == b & 0x01FF_F07F
    ensures Opcode(a) == Opcode(b) && Funct3(a) == Funct3(b) && Rs1(a) == Rs1(b) && Rs2(a) == Rs2(b)
  {}

  /** Words that agree on bits 0..11 agree on Opcode and Rd. */
  lemma AgreeLow12(a: Instruction, b: Instruction)
    requires a & 0x0000_0FFF == b & 0x0000_0FFF
    ensures Opcode(a) == Opcode(b) && Rd(a) == Rd(b)
  {}

  /** SetImmI keeps the four fields below the I immediate. */
  lemma SetImmIKeeps(i: Instruction, v: Int32)
    ensures var r := SetImmI(i, v);
      Opcode(r) == Opcode(i) && Rd(r) == Rd(i) && Funct3(r) == Funct3(i) && Rs1(r) == Rs1(i)
  {
    SetImmIFrame(i, v);
    AgreeLow20(SetImmI(i, v), i);
  }

  /** SetImmS keeps the four fields outside the S immediate. */
  lemma SetImmSKeeps(i: Instruction, v: Int32)
    ensures var r := SetImmS(i, v);
      Opcode(r) == Opcode(i) && Funct3(r) == Funct3(i) && Rs1(r) == Rs1(i) && Rs2(r) == Rs2(i)
  {
    SetImmSFrame(i, v);
    AgreeOutsideImmS(SetImmS(i, v), i);
  }

  /** SetImmB keeps the four fields outside the B immediate. */
  lemma SetImmBKeeps(i: Instruction, v: Int32)
    ensures var r := SetImmB(i, v);
      Opcode(r) == Opcode(i) && Funct3(r) == Funct3(i) && Rs1(r) == Rs1(i) && Rs2(r) == Rs2(i)
  {
    SetImmBFrame(i, v);
    AgreeOutsideImmS(SetImmB(i, v), i);
  }

  /** SetImmJ keeps Opcode and Rd. */
  lemma SetImmJKeeps(i: Instruction, v: Int32)
    ensures var r := SetImmJ(i, v);
      Opcode(r) == Opcode(i) && Rd(r) == Rd(i)
  {
    SetImmJFrame(i, v);
    AgreeLow12(SetImmJ(i, v), i);
  }

  lemma Funct7OfSmallImm(i: Instruction, u: bv32)
    requires u < 32
    ensures Funct7(PutImmI(i, u)) == 0
  {}

  /** A shift amount below 32 written as an I immediate leaves funct7 zero,
      as the RV32I encoding of SLLI requires. */
  lemma SetImmIShamt(i: Instruction, v: Int32)
    requires 0 <= v < 32
    ensures Funct7(SetImmI(i, v)) == 0
  {
    var u := FromInt(v);
    SmallFromInt(u, v);
    Funct7OfSmallImm(i, u);
  }

  lemma SmallFromInt(u: bv32, v: int)
    requires 0 <= v < 32 && u == FromInt(v)
    ensures u < 32
  {
    UnsignedOfNat(v);
    Unsigned32();
    UnsignedLt(u, 32);
  }

  lemma Unsigned32()
    ensures Unsigned(32) == 32
  {}

  /** The instruction format letter of the opcode: R, I, S, B, J or "unknown". */
  function Type(i: Instruction): string {
    var op := Opcode(i);
    if op == Op.OPCODE_R_TYPE then "R"
    else if op == Op.OPCODE_I_TYPE || op == Op.OPCODE_LOAD || op == Op.OPCODE_JALR then "I"
    else if op == Op.OPCODE_STORE then "S"
    else if op == Op.OPCODE_BRANCH then "B"
    else if op == Op.OPCODE_JAL then "J"
    else "unknown"
  }

  /** Exactly the seven known opcodes have a format, and each format letter
      belongs to the opcodes the RV32I manual gives it. */
  lemma TypeValid(i: Instruction)
    ensures Type(i) != "unknown" <==> Op.IsValidOpcode(Opcode(i))
    ensures Type(i) == "I" <==> Opcode(i) in {Op.OPCODE_I_TYPE, Op.OPCODE_LOAD, Op.OPCODE_JALR}
    ensures Type(i) == "R" <==> Opcode(i) == Op.OPCODE_R_TYPE
    ensures Type(i) == "S" <==> Opcode(i) == Op.OPCODE_STORE
    ensures Type(i) == "B" <==> Opcode(i) == Op.OPCODE_BRANCH
    ensures Type(i) == "J" <==> Opcode(i) == Op.OPCODE_JAL
  {}

  /** Type reads only the opcode field. */
  lemma TypeOfOpcode(i: Instruction, v: bv32)
    requires v < 0x80
    ensures Type(SetOpcode(i, v)) == Type(v)
  {}
}
