/** The processor: 32 registers and a program counter, and the fetch,
    decode, execute cycle over the RV32I subset the assembler emits
    (ADD, SUB, SLT, ADDI, SLLI, LW, SW, BEQ, BNE, BLT, JAL, JALR).

    `Execute` and `Next` below say, on values, what one instruction and one
    cycle do to the registers, the program counter and the memory bytes;
    the `Cpu` class's methods update its register array and program counter
    in place and are proved against them. */
module ArchCpu {
  import opened Word32
  import opened Results
  import opened ArchMemory
  import opened AsmInstruction
  import Op = AsmOpcode

  /** The contents of Go's `Reg [32]uint32`. */
  type RegFile = r: seq<bv32> | |r| == 32 witness ZERO_REGS

  const ZERO_REGS: seq<bv32> := seq(32, _ => 0)

  /** The amount the program counter moves by after an instruction that
      does not set it. */
  const INSTRUCTION_SIZE: bv32 := 4

  datatype Core = Core(regs: RegFile, pc: bv32)

  /** A processor together with the memory bytes it runs on. */
  datatype Sys = Sys(core: Core, mem: seq<bv8>)

  /** Why an instruction or a cycle fails. `Fault` is a memory error passed
      on as it is (a failed fetch, a failed SW); `LoadFailed` wraps the error
      of a failed LW. */
  datatype CpuError =
    | InvalidOpcode(instr: Instruction)
    | UnknownRFunct7(funct7: bv32)
    | UnknownRFunct3(funct3: bv32)
    | UnknownIFunct3(funct3: bv32)
    | LoadFailed(cause: MemError)
    | UnsupportedLoad(funct3: bv32)
    | UnsupportedStore(funct3: bv32)
    | UnknownBranch(funct3: bv32)
    | UnknownOpcode(opcode: bv32)
    | Fault(cause: MemError)

  // Registers.

  /** The index into the register file of a 5-bit register field. */
  function RegNum(r: bv32): (n: nat)
    ensures n < 32
    ensures r <= 0x1F ==> (n == 0 <==> r == 0)
  {
    (r & 0x1F) as int
  }

  /** The value of register r. */
  function Reg(regs: RegFile, r: bv32): bv32 {
    regs[RegNum(r)]
  }

  /** The register file after writing v to register n; a write to
      register 0 is dropped. */
  function WriteReg(regs: RegFile, n: nat, v: bv32): (r: RegFile)
    requires n < 32
    ensures r[0] == regs[0]
    ensures forall k :: 0 <= k < 32 && k != n ==> r[k] == regs[k]
    ensures n != 0 ==> r[n] == v
  {
    if n == 0 then regs else regs[n := v]
  }

  /** Go's `uint32(int32(pc) + imm)`: the int32 sum, wrapped to 32 bits. */
  function Jump(pc: bv32, imm: Int32): bv32 {
    FromInt(Signed(pc) + imm)
  }

  /** Go's `imm & 0x1F` on an int32: the low five bits of its two's
      complement pattern, a shift count of 0 to 31. */
  function Shamt(imm: Int32): (n: nat)
    ensures n < 32 && n == Unsigned(FromInt(imm)) % 32
  {
    UnsignedLow5(FromInt(imm));
    Unsigned(FromInt(imm) & 0x1F)
  }

  /** Go's `a << b` for an int32 count b: counts of 32 or more shift every
      bit out. (A negative count, on which Go panics, is never passed: the
      count is always a `Shamt`.) */
  function Shl(a: bv32, b: Int32): bv32 {
    if 0 <= b < 32 then a << b else 0
  }

  // The data path. Each is one Go expression on uint32 words, which wrap
  // at 2^32.

  /** `a + b` (ADD). */
  function Add(a: bv32, b: bv32): bv32 { a + b }

  /** `a - b` (SUB). */
  function Sub(a: bv32, b: bv32): bv32 { a - b }

  /** 1 if `int32(a) < int32(b)`, else 0 (SLT). */
  function Slt(a: bv32, b: bv32): bv32 { if Signed(a) < Signed(b) then 1 else 0 }

  /** `a + uint32(b)`: ADDI, and the address of a LW or SW. */
  function AddImm(a: bv32, b: Int32): bv32 { a + FromInt(b) }

  // One instruction, on values.

  function OpR(s: Sys, i: Instruction): Result<Sys, CpuError> {
    var a, b := Reg(s.core.regs, Rs1(i)), Reg(s.core.regs, Rs2(i));
    var rd := RegNum(Rd(i));
    if Funct3(i) == Op.FUNCT3_ADD_SUB then
      if Funct7(i) == Op.FUNCT7_ADD then Ok(s.(core := s.core.(regs := WriteReg(s.core.regs, rd, Add(a, b)))))
      else if Funct7(i) == Op.FUNCT7_SUB then Ok(s.(core := s.core.(regs := WriteReg(s.core.regs, rd, Sub(a, b)))))
      else Err(UnknownRFunct7(Funct7(i)))
    else if Funct3(i) == Op.FUNCT3_SLT then
      Ok(s.(core := s.core.(regs := WriteReg(s.core.regs, rd, Slt(a, b)))))
    else Err(UnknownRFunct3(Funct3(i)))
  }

  function OpI(s: Sys, i: Instruction): Result<Sys, CpuError> {
    var a, imm := Reg(s.core.regs, Rs1(i)), ImmI(i);
    var rd := RegNum(Rd(i));
    if Funct3(i) == Op.FUNCT3_ADDI then
      Ok(s.(core := s.core.(regs := WriteReg(s.core.regs, rd, AddImm(a, imm)))))
    else if Funct3(i) == Op.FUNCT3_SLLI then
      Ok(s.(core := s.core.(regs := WriteReg(s.core.regs, rd, Shl(a, Shamt(imm))))))
    else Err(UnknownIFunct3(Funct3(i)))
  }

  /** The address a LW reads: register rs1 plus the I immediate, wrapped. */
  function LoadAddr(regs: RegFile, i: Instruction): bv32 {
    AddImm(Reg(regs, Rs1(i)), ImmI(i))
  }

  /** The address a SW writes: register rs1 plus the S immediate, wrapped. */
  function StoreAddr(regs: RegFile, i: Instruction): bv32 {
    AddImm(Reg(regs, Rs1(i)), ImmS(i))
  }

  function OpLoad(s: Sys, i: Instruction): Result<Sys, CpuError> {
    if Funct3(i) == Op.FUNCT3_LW then
      match Read(s.mem, LoadAddr(s.core.regs, i))
      case Err(e) => Err(LoadFailed(e))
      case Ok(v) => Ok(s.(core := s.core.(regs := WriteReg(s.core.regs, RegNum(Rd(i)), v))))
    else Err(UnsupportedLoad(Funct3(i)))
  }

  function OpStore(s: Sys, i: Instruction): Result<Sys, CpuError> {
    var addr := StoreAddr(s.core.regs, i);
    if Funct3(i) == Op.FUNCT3_SW then
      if InBounds(|s.mem|, addr) then Ok(s.(mem := PutWord(s.mem, Unsigned(addr), Reg(s.core.regs, Rs2(i)))))
      else Err(Fault(OutOfBounds(addr)))
    else Err(UnsupportedStore(Funct3(i)))
  }

  /** Whether the branch with funct3 f is taken on operands a and b. */
  function Taken(f: bv32, a: bv32, b: bv32): bool {
    if f == Op.FUNCT3_BEQ then a == b
    else if f == Op.FUNCT3_BNE then a != b
    else Signed(a) < Signed(b)
  }

  function OpBranch(s: Sys, i: Instruction): Result<Sys, CpuError> {
    var f := Funct3(i);
    if f == Op.FUNCT3_BEQ || f == Op.FUNCT3_BNE || f == Op.FUNCT3_SLT then
      var a, b := Reg(s.core.regs, Rs1(i)), Reg(s.core.regs, Rs2(i));
      var pc := if Taken(f, a, b) then Jump(s.core.pc, ImmB(i)) else s.core.pc + INSTRUCTION_SIZE;
      Ok(s.(core := s.core.(pc := pc)))
    else Err(UnknownBranch(f))
  }

  function OpJal(s: Sys, i: Instruction): Sys {
    var regs := WriteReg(s.core.regs, RegNum(Rd(i)), s.core.pc + INSTRUCTION_SIZE);
    s.(core := Core(regs, Jump(s.core.pc, ImmJ(i))))
  }

  /** Go's `(base + uint32(imm)) &^ 1`: the JALR target, the wrapped sum
      with its lowest bit cleared. */
  function Target(base: bv32, imm: Int32): bv32 {
    (base + FromInt(imm)) & !1
  }

  /** The target is computed from register rs1 before rd is written. */
  function OpJalr(s: Sys, i: Instruction): Sys {
    var target := Target(Reg(s.core.regs, Rs1(i)), ImmI(i));
    var regs := WriteReg(s.core.regs, RegNum(Rd(i)), s.core.pc + INSTRUCTION_SIZE);
    s.(core := Core(regs, target))
  }

  /** What `exec` does with one instruction word: the new processor and
      memory, or the error. Only BRANCH, JAL and JALR change the program
      counter here. */
  function Execute(s: Sys, i: Instruction): Result<Sys, CpuError> {
    var op := Opcode(i);
    if op == Op.OPCODE_INVALID then Err(InvalidOpcode(i))
    else if op == Op.OPCODE_R_TYPE then OpR(s, i)
    else if op == Op.OPCODE_I_TYPE then OpI(s, i)
    else if op == Op.OPCODE_LOAD then OpLoad(s, i)
    else if op == Op.OPCODE_STORE then OpStore(s, i)
    else if op == Op.OPCODE_BRANCH then OpBranch(s, i)
    else if op == Op.OPCODE_JAL then Ok(OpJal(s, i))
    else if op == Op.OPCODE_JALR then Ok(OpJalr(s, i))
    else Err(UnknownOpcode(op))
  }

  /** The opcodes whose execution sets the program counter itself. */
  predicate SetsPc(op: Op.Opcode) {
    op == Op.OPCODE_BRANCH || op == Op.OPCODE_JAL || op == Op.OPCODE_JALR
  }

  /** One fetch, execute cycle: read the word at the program counter,
      execute it, then move past it unless it set the program counter. */
  function Next(s: Sys): Result<Sys, CpuError> {
    match Read(s.mem, s.core.pc)
    case Err(e) => Err(Fault(e))
    case Ok(w) =>
      match Execute(s, w)
      case Err(e) => Err(e)
      case Ok(t) => Ok(if SetsPc(Opcode(w)) then t else t.(core := t.core.(pc := t.core.pc + INSTRUCTION_SIZE)))
  }

  // What one instruction and one cycle do.

  /** The instructions `exec` implements: opcode, funct3 and, for ADD and
      SUB, funct7. */
  predicate Supported(i: Instruction) {
    var op, f3, f7 := Opcode(i), Funct3(i), Funct7(i);
    (op == Op.OPCODE_R_TYPE && ((f3 == Op.FUNCT3_ADD_SUB && (f7 == Op.FUNCT7_ADD || f7 == Op.FUNCT7_SUB)) || f3 == Op.FUNCT3_SLT))
    || (op == Op.OPCODE_I_TYPE && (f3 == Op.FUNCT3_ADDI || f3 == Op.FUNCT3_SLLI))
    || (op == Op.OPCODE_LOAD && f3 == Op.FUNCT3_LW)
    || (op == Op.OPCODE_STORE && f3 == Op.FUNCT3_SW)
    || (op == Op.OPCODE_BRANCH && (f3 == Op.FUNCT3_BEQ || f3 == Op.FUNCT3_BNE || f3 == Op.FUNCT3_SLT))
    || op == Op.OPCODE_JAL || op == Op.OPCODE_JALR
  }

  /** A supported instruction that accesses memory, at an address outside it. */
  predicate MemoryFault(s: Sys, i: Instruction) {
    (Opcode(i) == Op.OPCODE_LOAD && Funct3(i) == Op.FUNCT3_LW && !InBounds(|s.mem|, LoadAddr(s.core.regs, i)))
    || (Opcode(i) == Op.OPCODE_STORE && Funct3(i) == Op.FUNCT3_SW && !InBounds(|s.mem|, StoreAddr(s.core.regs, i)))
  }

  /** Every supported instruction has one of the seven known opcodes. */
  lemma SupportedOpcode(i: Instruction)
    requires Supported(i)
    ensures Op.IsValidOpcode(Opcode(i))
  {}

  /** An instruction fails exactly when it is not supported or it accesses
      memory out of bounds. */
  lemma ExecuteFails(s: Sys, i: Instruction)
    ensures Execute(s, i).Err? <==> !Supported(i) || MemoryFault(s, i)
  {
    Op.OpcodesDistinct();
    Op.FunctsDistinct();
  }

  /** A cycle fails exactly when the fetch is out of bounds or the fetched
      instruction fails. */
  lemma NextFails(s: Sys)
    ensures Next(s).Err? <==> !InBounds(|s.mem|, s.core.pc) || !Supported(WordAt(s.mem, Unsigned(s.core.pc))) || MemoryFault(s, WordAt(s.mem, Unsigned(s.core.pc)))
  {
    if InBounds(|s.mem|, s.core.pc) {
      ExecuteFails(s, WordAt(s.mem, Unsigned(s.core.pc)));
    }
  }

  /** Register 0 is never written: a successful instruction keeps its value. */
  lemma ExecuteKeepsZero(s: Sys, i: Instruction)
    requires Execute(s, i).Ok?
    ensures Execute(s, i).value.core.regs[0] == s.core.regs[0]
  {}

  /** So a cycle keeps it too, and register 0 stays zero from `NewCPU` on. */
  lemma NextKeepsZero(s: Sys)
    requires Next(s).Ok?
    ensures Next(s).value.core.regs[0] == s.core.regs[0]
  {
    ExecuteKeepsZero(s, WordAt(s.mem, Unsigned(s.core.pc)));
  }

  /** A successful instruction other than SW leaves memory alone. */
  lemma ExecuteKeepsMemory(s: Sys, i: Instruction)
    requires Execute(s, i).Ok? && Opcode(i) != Op.OPCODE_STORE
    ensures Execute(s, i).value.mem == s.mem
  {}

  /** A successful SW changes only memory, storing register rs2 at its
      address. */
  lemma ExecuteStore(s: Sys, i: Instruction)
    requires Execute(s, i).Ok? && Opcode(i) == Op.OPCODE_STORE
    ensures Execute(s, i) == Ok(s.(mem := PutWord(s.mem, Unsigned(StoreAddr(s.core.regs, i)), Reg(s.core.regs, Rs2(i)))))
  {
    Op.OpcodesDistinct();
  }

  /** A successful instruction changes no register except rd. */
  lemma ExecuteOnlyRd(s: Sys, i: Instruction, k: nat)
    requires Execute(s, i).Ok? && k < 32 && k != RegNum(Rd(i))
    ensures Execute(s, i).value.core.regs[k] == s.core.regs[k]
  {
    Op.OpcodesDistinct();
  }

  /** After a successful R-type, I-type, LOAD or STORE cycle the program
      counter has moved past the instruction, by exactly 4 (wrapping). */
  lemma NextAdvances(s: Sys)
    requires Next(s).Ok?
    requires !SetsPc(Opcode(WordAt(s.mem, Unsigned(s.core.pc))))
    ensures Next(s).value.core.pc == s.core.pc + INSTRUCTION_SIZE
  {
    ExecuteKeepsPc(s, WordAt(s.mem, Unsigned(s.core.pc)));
  }

  /** Only BRANCH, JAL and JALR set the program counter during execution. */
  lemma ExecuteKeepsPc(s: Sys, i: Instruction)
    requires Execute(s, i).Ok? && !SetsPc(Opcode(i))
    ensures Execute(s, i).value.core.pc == s.core.pc
  {}

  /** A branch cycle: the program counter jumps by the B immediate when the
      condition holds (BEQ equal, BNE unequal, BLT signed less) and moves
      past the instruction otherwise; nothing else changes. */
  lemma NextBranch(s: Sys, w: Instruction)
    requires Read(s.mem, s.core.pc) == Ok(w)
    requires Opcode(w) == Op.OPCODE_BRANCH
    requires Funct3(w) in {Op.FUNCT3_BEQ, Op.FUNCT3_BNE, Op.FUNCT3_SLT}
    ensures Next(s).Ok? && Next(s).value.mem == s.mem && Next(s).value.core.regs == s.core.regs
    ensures var a, b := Reg(s.core.regs, Rs1(w)), Reg(s.core.regs, Rs2(w));
      Next(s).value.core.pc == if Taken(Funct3(w), a, b) then Jump(s.core.pc, ImmB(w)) else s.core.pc + INSTRUCTION_SIZE
  {
    Op.OpcodesDistinct();
  }

  /** What each branch condition tests. */
  lemma TakenMeans(a: bv32, b: bv32)
    ensures Taken(Op.FUNCT3_BEQ, a, b) <==> a == b
    ensures Taken(Op.FUNCT3_BNE, a, b) <==> a != b
    ensures Taken(Op.FUNCT3_SLT, a, b) <==> Signed(a) < Signed(b)
  {
    Op.FunctsDistinct();
  }

  /** A JAL cycle: rd gets the address of the next instruction and the
      program counter jumps by the J immediate; memory is unchanged. */
  lemma NextJal(s: Sys, w: Instruction)
    requires Read(s.mem, s.core.pc) == Ok(w)
    requires Opcode(w) == Op.OPCODE_JAL
    ensures Next(s) == Ok(Sys(Core(WriteReg(s.core.regs, RegNum(Rd(w)), s.core.pc + INSTRUCTION_SIZE), Jump(s.core.pc, ImmJ(w))), s.mem))
  {
    Op.OpcodesDistinct();
  }

  /** A JALR cycle: rd gets the address of the next instruction and the
      program counter goes to rs1 plus the I immediate with the low bit
      cleared, where rs1 is read before rd is written (so `jalr x1, 0(x1)`
      jumps to the old x1). */
  lemma NextJalr(s: Sys, w: Instruction)
    requires Read(s.mem, s.core.pc) == Ok(w)
    requires Opcode(w) == Op.OPCODE_JALR
    ensures Next(s) == Ok(Sys(Core(WriteReg(s.core.regs, RegNum(Rd(w)), s.core.pc + INSTRUCTION_SIZE), Target(Reg(s.core.regs, Rs1(w)), ImmI(w))), s.mem))
  {
    Op.OpcodesDistinct();
  }

  /** A JALR target is even. */
  lemma TargetEven(base: bv32, imm: Int32)
    ensures Unsigned(Target(base, imm)) % 2 == 0
  {
    ClearedEven(base + FromInt(imm));
  }

  lemma ClearedEven(x: bv32)
    ensures Unsigned(x & !1) % 2 == 0
  {
    UnsignedClearLow(x);
    RoundDownEven(Unsigned(x));
  }

  lemma RoundDownEven(u: int)
    ensures (u - u % 2) % 2 == 0
  {}

  /** A jump is the wrapped sum of the program counter and the offset. */
  lemma JumpValue(pc: bv32, imm: Int32)
    ensures Unsigned(Jump(pc, imm)) == (Unsigned(pc) + imm) % TWO32
  {
    assert Unsigned(Jump(pc, imm)) == (Signed(pc) + imm) % TWO32 by {
      UnsignedFromInt(Signed(pc) + imm);
    }
    if Signed(pc) != Unsigned(pc) {
      assert Signed(pc) + imm == Unsigned(pc) + imm - TWO32;
      ModShift(Unsigned(pc) + imm);
    }
  }

  /** SLLI shifts by the low five bits of the immediate's pattern. */
  lemma ShamtOfImmI(i: Instruction)
    ensures Shamt(ImmI(i)) == Unsigned(ImmIBits(i)) % 32
  {
    FromIntSigned(ImmIBits(i));
  }

  /** A method's outcome agrees with res: on success r is Ok and the state
      is res's; on failure r carries res's error and the state is as it was. */
  predicate Agrees(r: Result<(), CpuError>, res: Result<Sys, CpuError>, before: Sys, after: Sys) {
    match res
    case Ok(t) => r == Ok(()) && after == t
    case Err(e) => r == Err(e) && after == before
  }

  class Cpu {
    const reg: array<bv32>
    var pc: bv32

    ghost predicate Valid()
      reads this
    {
      reg.Length == 32
    }

    function State(): Core
      requires Valid()
      reads this, reg
    {
      Core(reg[..], pc)
    }

    /** The processor and the bytes of the memory it is given. */
    function With(memory: Memory): Sys
      requires Valid()
      reads this, reg, memory, memory.data
    {
      Sys(State(), memory.data[..])
    }

    /** `NewCPU`: all registers and the program counter zero. */
    constructor()
      ensures Valid() && fresh(reg)
      ensures State() == Core(ZERO_REGS, 0)
    {
      reg := new bv32[32](_ => 0);
      pc := 0;
    }

    method SetReg(idx: nat, value: bv32)
      requires Valid() && idx < 32
      modifies reg
      ensures reg[..] == WriteReg(old(reg[..]), idx, value)
    {
      if idx != 0 {
        reg[idx] := value;
      }
    }

    /** `if rd != 0 { c.Reg[rd] = v }`, as the LOAD, JAL and JALR cases of
        `exec` write their destination register. */
    method WriteRd(rd: bv32, v: bv32)
      requires Valid() && rd <= 0x1F
      modifies reg
      ensures reg[..] == WriteReg(old(reg[..]), RegNum(rd), v)
    {
      if rd != 0 {
        reg[RegNum(rd)] := v;
      }
    }

    /** An R-type operation: rd := op(rs1, rs2), unless rd is register 0. */
    method AluRType(rd: bv32, rs1: bv32, rs2: bv32, op: (bv32, bv32) -> bv32)
      requires Valid() && rd <= 0x1F
      modifies reg
      ensures reg[..] == WriteReg(old(reg[..]), RegNum(rd), op(Reg(old(reg[..]), rs1), Reg(old(reg[..]), rs2)))
    {
      if rd == 0 {
        return;
      }
      reg[RegNum(rd)] := op(reg[RegNum(rs1)], reg[RegNum(rs2)]);
    }

    /** An I-type operation: rd := op(rs1, imm), unless rd is register 0. */
    method AluIType(rd: bv32, rs1: bv32, imm: Int32, op: (bv32, Int32) -> bv32)
      requires Valid() && rd <= 0x1F
      modifies reg
      ensures reg[..] == WriteReg(old(reg[..]), RegNum(rd), op(Reg(old(reg[..]), rs1), imm))
    {
      if rd == 0 {
        return;
      }
      reg[RegNum(rd)] := op(reg[RegNum(rs1)], imm);
    }

    /** A conditional branch: jump by imm if cond holds, else move past. */
    method Branch(rs1: bv32, rs2: bv32, imm: Int32, cond: (bv32, bv32) -> bool)
      requires Valid()
      modifies this
      ensures pc == if cond(Reg(reg[..], rs1), Reg(reg[..], rs2)) then Jump(old(pc), imm) else old(pc) + INSTRUCTION_SIZE
    {
      if cond(reg[RegNum(rs1)], reg[RegNum(rs2)]) {
        pc := Jump(pc, imm);
      } else {
        pc := pc + INSTRUCTION_SIZE;
      }
    }

    // The cases of `exec`, one opcode each.

    method ExecR(instr: Instruction, ghost memory: Memory) returns (r: Result<(), CpuError>)
      requires Valid()
      modifies reg
      ensures Agrees(r, OpR(old(With(memory)), instr), old(With(memory)), With(memory))
    {
      var rd, rs1, rs2 := Rd(instr), Rs1(instr), Rs2(instr);
      if Funct3(instr) == Op.FUNCT3_ADD_SUB {
        if Funct7(instr) == Op.FUNCT7_ADD {
          AluRType(rd, rs1, rs2, Add);
        } else if Funct7(instr) == Op.FUNCT7_SUB {
          AluRType(rd, rs1, rs2, Sub);
        } else {
          return Err(UnknownRFunct7(Funct7(instr)));
        }
      } else if Funct3(instr) == Op.FUNCT3_SLT {
        AluRType(rd, rs1, rs2, Slt);
      } else {
        return Err(UnknownRFunct3(Funct3(instr)));
      }
      return Ok(());
    }

    method ExecI(instr: Instruction, ghost memory: Memory) returns (r: Result<(), CpuError>)
      requires Valid()
      modifies reg
      ensures Agrees(r, OpI(old(With(memory)), instr), old(With(memory)), With(memory))
    {
      var rd, rs1, imm := Rd(instr), Rs1(instr), ImmI(instr);
      if Funct3(instr) == Op.FUNCT3_ADDI {
        AluIType(rd, rs1, imm, AddImm);
      } else if Funct3(instr) == Op.FUNCT3_SLLI {
        var shamt := Shamt(imm);
        AluIType(rd, rs1, shamt, Shl);
      } else {
        return Err(UnknownIFunct3(Funct3(instr)));
      }
      return Ok(());
    }

    method ExecLoad(instr: Instruction, memory: Memory) returns (r: Result<(), CpuError>)
      requires Valid()
      modifies reg
      ensures Agrees(r, OpLoad(old(With(memory)), instr), old(With(memory)), With(memory))
    {
      ghost var s := With(memory);
      var rd, rs1, imm := Rd(instr), Rs1(instr), ImmI(instr);
      var addr := AddImm(reg[RegNum(rs1)], imm);
      assert addr == LoadAddr(s.core.regs, instr);
      if Funct3(instr) == Op.FUNCT3_LW {
        var value := memory.ReadWord(addr);
        if value.Err? {
          return Err(LoadFailed(value.error));
        }
        WriteRd(rd, value.value);
        assert With(memory) == s.(core := s.core.(regs := WriteReg(s.core.regs, RegNum(rd), value.value)));
      } else {
        return Err(UnsupportedLoad(Funct3(instr)));
      }
      return Ok(());
    }

    method ExecStore(instr: Instruction, memory: Memory) returns (r: Result<(), CpuError>)
      requires Valid()
      modifies memory.data
      ensures Agrees(r, OpStore(old(With(memory)), instr), old(With(memory)), With(memory))
    {
      ghost var s := With(memory);
      var rs1, rs2, imm := Rs1(instr), Rs2(instr), ImmS(instr);
      var addr := AddImm(reg[RegNum(rs1)], imm);
      var value := reg[RegNum(rs2)];
      assert addr == StoreAddr(s.core.regs, instr) && value == Reg(s.core.regs, Rs2(instr));
      if Funct3(instr) == Op.FUNCT3_SW {
        var w := memory.WriteWord(addr, value);
        if w.Err? {
          return Err(Fault(w.error));
        }
        assert With(memory) == s.(mem := PutWord(s.mem, Unsigned(addr), value));
      } else {
        return Err(UnsupportedStore(Funct3(instr)));
      }
      return Ok(());
    }

    method ExecBranch(instr: Instruction, ghost memory: Memory) returns (r: Result<(), CpuError>)
      requires Valid()
      modifies this
      ensures Agrees(r, OpBranch(old(With(memory)), instr), old(With(memory)), With(memory))
    {
      var rs1, rs2, imm := Rs1(instr), Rs2(instr), ImmB(instr);
      var f := Funct3(instr);
      if f == Op.FUNCT3_BEQ {
        Branch(rs1, rs2, imm, (a, b) => a == b);
      } else if f == Op.FUNCT3_BNE {
        Branch(rs1, rs2, imm, (a, b) => a != b);
      } else if f == Op.FUNCT3_SLT {
        Branch(rs1, rs2, imm, (a, b) => Signed(a) < Signed(b));
      } else {
        return Err(UnknownBranch(f));
      }
      return Ok(());
    }

    method ExecJal(instr: Instruction, ghost memory: Memory)
      requires Valid()
      modifies this, reg
      ensures With(memory) == OpJal(old(With(memory)), instr)
    {
      var rd, imm := Rd(instr), ImmJ(instr);
      WriteRd(rd, pc + INSTRUCTION_SIZE);
      pc := Jump(pc, imm);
    }

    method ExecJalr(instr: Instruction, ghost memory: Memory)
      requires Valid()
      modifies this, reg
      ensures With(memory) == OpJalr(old(With(memory)), instr)
    {
      ghost var s := With(memory);
      var rd, rs1, imm := Rd(instr), Rs1(instr), ImmI(instr);
      var next := pc + INSTRUCTION_SIZE;
      var target := Target(reg[RegNum(rs1)], imm);
      assert target == OpJalr(s, instr).core.pc;
      WriteRd(rd, next);
      pc := target;
    }

    /** `exec`: decode the opcode and run its case. */
    method Exec(instr: Instruction, memory: Memory) returns (r: Result<(), CpuError>)
      requires Valid()
      modifies this, reg, memory.data
      ensures Agrees(r, Execute(old(With(memory)), instr), old(With(memory)), With(memory))
    {
      var opcode := Opcode(instr);
      if opcode == Op.OPCODE_INVALID {
        return Err(InvalidOpcode(instr));
      }
      if opcode == Op.OPCODE_R_TYPE {
        r := ExecR(instr, memory);
      } else if opcode == Op.OPCODE_I_TYPE {
        r := ExecI(instr, memory);
      } else if opcode == Op.OPCODE_LOAD {
        r := ExecLoad(instr, memory);
      } else if opcode == Op.OPCODE_STORE {
        r := ExecStore(instr, memory);
      } else if opcode == Op.OPCODE_BRANCH {
        r := ExecBranch(instr, memory);
      } else if opcode == Op.OPCODE_JAL {
        ExecJal(instr, memory);
        r := Ok(());
      } else if opcode == Op.OPCODE_JALR {
        ExecJalr(instr, memory);
        r := Ok(());
      } else {
        r := Err(UnknownOpcode(opcode));
      }
    }

    /** `Step`: fetch the word at the program counter, execute it, and move
        past it unless it set the program counter. */
    method Step(memory: Memory) returns (r: Result<(), CpuError>)
      requires Valid()
      modifies this, reg, memory.data
      ensures Agrees(r, Next(old(With(memory))), old(With(memory)), With(memory))
    {
      var word := memory.ReadWord(pc);
      if word.Err? {
        return Err(Fault(word.error));
      }
      var instr := word.value;
      r := Exec(instr, memory);
      if r.Err? {
        return;
      }
      var opcode := Opcode(instr);
      if !(opcode == Op.OPCODE_BRANCH || opcode == Op.OPCODE_JAL || opcode == Op.OPCODE_JALR) {
        pc := pc + INSTRUCTION_SIZE;
      }
    }
  }
}
