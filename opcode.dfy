/** The opcode, funct3 and funct7 constants of the supported RV32I subset,
    and the printable name of an opcode. */
module AsmOpcode {
  import opened Word32

  /** The main opcode field of an instruction (Go's `type Opcode uint32`). */
  type Opcode = bv32

  const OPCODE_R_TYPE: Opcode := 0x33
  const OPCODE_I_TYPE: Opcode := 0x13
  const OPCODE_JALR: Opcode := 0x67
  const OPCODE_LOAD: Opcode := 0x03
  const OPCODE_STORE: Opcode := 0x23
  const OPCODE_BRANCH: Opcode := 0x63
  const OPCODE_JAL: Opcode := 0x6F

  /** The opcode the engine treats as "no opcode"; zero is none of the seven. */
  const OPCODE_INVALID: Opcode := 0x00

  /** The width of one instruction word in bytes (assembler.INSTRUCTION_SIZE). */
  const INSTRUCTION_SIZE: nat := 4

  const FUNCT3_ADD_SUB: bv32 := 0x0
  const FUNCT3_SLT: bv32 := 0x2
  const FUNCT3_AND: bv32 := 0x7
  const FUNCT3_OR: bv32 := 0x6
  const FUNCT3_XOR: bv32 := 0x4
  const FUNCT3_BEQ: bv32 := 0x0
  const FUNCT3_BNE: bv32 := 0x1
  const FUNCT3_LW: bv32 := 0x2
  const FUNCT3_SW: bv32 := 0x2
  const FUNCT3_ADDI: bv32 := 0x0
  const FUNCT3_SLLI: bv32 := 0x1
  const FUNCT3_ANDI: bv32 := 0x7
  const FUNCT3_ORI: bv32 := 0x6
  const FUNCT3_JALR: bv32 := 0x0

  const FUNCT7_ADD: bv32 := 0x00
  const FUNCT7_SUB: bv32 := 0x20

  /** The seven opcodes the toolchain knows. */
  const KnownOpcodes: seq<Opcode> :=
    [OPCODE_R_TYPE, OPCODE_I_TYPE, OPCODE_JALR, OPCODE_LOAD, OPCODE_STORE, OPCODE_BRANCH, OPCODE_JAL]

  predicate IsValidOpcode(op: Opcode) {
    op in KnownOpcodes
  }

  /** The seven opcodes are pairwise distinct, fit in the 7-bit field, and
      OPCODE_INVALID is none of them. */
  lemma OpcodesDistinct()
    ensures forall a, b :: 0 <= a < b < |KnownOpcodes| ==> KnownOpcodes[a] != KnownOpcodes[b]
    ensures forall a :: 0 <= a < |KnownOpcodes| ==> KnownOpcodes[a] < 0x80
    ensures !IsValidOpcode(OPCODE_INVALID)
  {}

  /** The funct values that tell instructions of one opcode apart differ. */
  lemma FunctsDistinct()
    ensures FUNCT7_ADD != FUNCT7_SUB
    ensures FUNCT3_BEQ != FUNCT3_BNE && FUNCT3_BEQ != FUNCT3_SLT && FUNCT3_BNE != FUNCT3_SLT
    ensures FUNCT3_ADD_SUB != FUNCT3_SLT && FUNCT3_ADDI != FUNCT3_SLLI
    ensures FUNCT3_LW == FUNCT3_SW
  {}

  /** The upper-case hexadecimal digit of a value below 16. */
  function HexChar(d: nat): (c: char)
    requires d < 16
  {
    if d < 10 then ('0' as int + d) as char else ('A' as int + d - 10) as char
  }

  /** The value of an upper-case hexadecimal digit. */
  function HexValue(c: char): int {
    if '0' <= c <= '9' then c as int - '0' as int
    else if 'A' <= c <= 'F' then c as int - 'A' as int + 10
    else -1
  }

  predicate IsHexChar(c: char) {
    '0' <= c <= '9' || 'A' <= c <= 'F'
  }

  /** n in upper-case hexadecimal without leading zeros (Go's `%X`). */
  function Hex(n: nat): (s: string)
    ensures |s| >= 1
    decreases n
  {
    if n < 16 then [HexChar(n)] else Hex(n / 16) + [HexChar(n % 16)]
  }

  /** The value of a string of hexadecimal digits. */
  function HexParse(s: string): int
    decreases |s|
  {
    if |s| == 0 then 0 else HexParse(s[..|s| - 1]) * 16 + HexValue(s[|s| - 1])
  }

  /** Hex writes only digits, starts with a non-zero digit unless n is zero,
      and reading its digits back gives n. */
  lemma {:induction false} HexRoundTrip(n: nat)
    ensures forall k :: 0 <= k < |Hex(n)| ==> IsHexChar(Hex(n)[k])
    ensures n > 0 ==> Hex(n)[0] != '0'
    ensures HexParse(Hex(n)) == n
    decreases n
  {
    if n >= 16 {
      HexRoundTrip(n / 16);
      var s := Hex(n);
      assert s[..|s| - 1] == Hex(n / 16);
    }
  }

  /** The printable name of an opcode (Go's `Opcode.String`). */
  function Name(op: Opcode): (s: string)
  {
    if op == OPCODE_R_TYPE then "R-Type"
    else if op == OPCODE_I_TYPE then "I-Type"
    else if op == OPCODE_JALR then "JALR"
    else if op == OPCODE_LOAD then "LOAD"
    else if op == OPCODE_STORE then "STORE"
    else if op == OPCODE_BRANCH then "BRANCH"
    else if op == OPCODE_JAL then "JAL"
    else "Unknown(0x" + Hex(Unsigned(op)) + ")"
  }

  /** Every value outside the seven is named "Unknown(0x<hex>)", and the hex
      digits read back to the value; no known name has that form. */
  lemma NameUnknown(op: Opcode)
    ensures !IsValidOpcode(op) <==> (|Name(op)| > 11 && Name(op)[..10] == "Unknown(0x" && Name(op)[|Name(op)| - 1] == ')')
    ensures !IsValidOpcode(op) ==> HexParse(Name(op)[10..|Name(op)| - 1]) == Unsigned(op)
  {
    if !IsValidOpcode(op) {
      HexRoundTrip(Unsigned(op));
      var h := Hex(Unsigned(op));
      assert Name(op) == "Unknown(0x" + h + ")";
      assert Name(op)[10..|Name(op)| - 1] == h;
    }
  }

  /** Names of the seven opcodes, and the one example of an unknown opcode. */
  lemma NameExamples()
    ensures Name(OPCODE_R_TYPE) == "R-Type" && Name(OPCODE_I_TYPE) == "I-Type" && Name(OPCODE_JALR) == "JALR"
    ensures Name(OPCODE_LOAD) == "LOAD" && Name(OPCODE_STORE) == "STORE"
    ensures Name(OPCODE_BRANCH) == "BRANCH" && Name(OPCODE_JAL) == "JAL"
    ensures Name(0xFF) == "Unknown(0xFF)"
  {
    assert Unsigned(0xFF) == 255;
    assert Hex(255) == "FF";
  }
}
