/** The machine: a processor and its memory, with program loading, reset
    and single steps.

    `WriteProgram` says, on the memory's bytes, what loading a program
    does, including the partial writes a failed load leaves behind; the
    `Machine` class's methods are proved against it and against `Next`. */
module ArchMachine {
  import opened Word32
  import opened Results
  import opened ArchMemory
  import opened ArchCpu
  import opened AsmInstruction

  // Word addresses of a loaded program.

  /** The address of word k of a program loaded at start: Go's
      `startAddr + uint32(k*4)`, which is start stepped by 4 bytes k times,
      each step wrapping at 2^32. */
  function ProgramAddr(start: bv32, k: nat): bv32 {
    if k == 0 then start else ProgramAddr(start, k - 1) + 4
  }

  /** The same address as a number, from the start's value base. */
  function WordAddr(base: nat, k: nat): nat {
    if k == 0 then base
    else
      var a := WordAddr(base, k - 1) + 4;
      if a < TWO32 then a else a - TWO32
  }

  lemma AddressStep(b: bv32, c: bv32, u: nat, v: nat)
    requires Unsigned(b) == u && c == b + 4 && v == if u + 4 < TWO32 then u + 4 else u + 4 - TWO32
    ensures Unsigned(c) == v
  {
    if u + 4 < TWO32 {
      UnsignedAddFour(b);
    } else {
      UnsignedAddFourWrap(b);
    }
  }

  /** The bit pattern and the number name the same address. */
  lemma {:induction false} ProgramAddrValue(start: bv32, k: nat)
    ensures Unsigned(ProgramAddr(start, k)) == WordAddr(Unsigned(start), k)
  {
    if k > 0 {
      ProgramAddrValue(start, k - 1);
      AddressStep(ProgramAddr(start, k - 1), ProgramAddr(start, k), WordAddr(Unsigned(start), k - 1), WordAddr(Unsigned(start), k));
    }
  }

  /** Without wrap-around, word k sits 4k bytes after the start. */
  lemma {:induction false} WordAddrValue(base: nat, k: nat)
    requires base + 4 * k < TWO32
    ensures WordAddr(base, k) == base + 4 * k
  {
    if k > 0 {
      WordAddrValue(base, k - 1);
    }
  }

  // Loading a program into memory.

  /** The memory bytes after a load and the load's outcome. */
  datatype Loaded = Loaded(mem: seq<bv8>, result: Result<(), MemError>)

  /** One more word w, at address addr whose value is a, after the load p:
      nothing once p failed, else the write, or the error when the word
      does not fit. */
  function WriteStep(p: Loaded, addr: bv32, a: nat, w: bv32): (l: Loaded)
    ensures |l.mem| == |p.mem|
    ensures l.result.Ok? <==> p.result.Ok? && a + 4 <= |p.mem|
  {
    if p.result.Err? then p
    else if a + 4 <= |p.mem| then Loaded(PutWord(p.mem, a, w), Ok(()))
    else Loaded(p.mem, Err(OutOfBounds(addr)))
  }

  /** Writing the words of prog in order from start, whose value is base,
      stopping at the first one that does not fit; the words before it
      stay written. */
  function WriteFrom(d: seq<bv8>, prog: seq<Instruction>, start: bv32, base: nat): (l: Loaded)
    ensures |l.mem| == |d|
    decreases |prog|
  {
    if prog == [] then Loaded(d, Ok(()))
    else
      var n := |prog| - 1;
      WriteStep(WriteFrom(d, prog[..n], start, base), ProgramAddr(start, n), WordAddr(base, n), prog[n])
  }

  /** `WriteProgramWords` on a memory with contents d. */
  function WriteProgram(d: seq<bv8>, prog: seq<Instruction>, start: bv32): (l: Loaded)
    ensures |l.mem| == |d|
  {
    WriteFrom(d, prog, start, Unsigned(start))
  }

  /** Loading one more word: the first i words' load, then word i. */
  lemma WriteFromStep(d: seq<bv8>, prog: seq<Instruction>, start: bv32, base: nat, i: nat)
    requires i < |prog|
    ensures WriteFrom(d, prog[..i + 1], start, base)
      == WriteStep(WriteFrom(d, prog[..i], start, base), ProgramAddr(start, i), WordAddr(base, i), prog[i])
  {
    assert prog[..i + 1][..i] == prog[..i];
  }

  /** The first n words of a load from base each have their 4 bytes in a
      memory of len bytes. */
  predicate AllFit(len: nat, base: nat, n: nat) {
    n == 0 || (AllFit(len, base, n - 1) && WordAddr(base, n - 1) + 4 <= len)
  }

  lemma {:induction false} AllFitMeans(len: nat, base: nat, n: nat)
    ensures AllFit(len, base, n) <==> forall k :: 0 <= k < n ==> WordAddr(base, k) + 4 <= len
  {
    if n > 0 {
      AllFitMeans(len, base, n - 1);
      if forall k :: 0 <= k < n ==> WordAddr(base, k) + 4 <= len {
        assert forall k :: 0 <= k < n - 1 ==> WordAddr(base, k) + 4 <= len;
        assert WordAddr(base, n - 1) + 4 <= len;
        assert AllFit(len, base, n - 1);
      }
      if AllFit(len, base, n) {
        forall k | 0 <= k < n
          ensures WordAddr(base, k) + 4 <= len
        {
          if k < n - 1 {
            assert AllFit(len, base, n - 1);
          }
        }
      }
    }
  }

  lemma {:induction false} WriteFromAllFit(d: seq<bv8>, prog: seq<Instruction>, start: bv32, base: nat)
    ensures WriteFrom(d, prog, start, base).result.Ok? <==> AllFit(|d|, base, |prog|)
    decreases |prog|
  {
    if prog != [] {
      WriteFromAllFit(d, prog[..|prog| - 1], start, base);
    }
  }

  /** A load succeeds exactly when every word's 4 bytes lie in memory. */
  lemma WriteFromOk(d: seq<bv8>, prog: seq<Instruction>, start: bv32, base: nat)
    ensures WriteFrom(d, prog, start, base).result.Ok? <==> forall k :: 0 <= k < |prog| ==> WordAddr(base, k) + 4 <= |d|
  {
    WriteFromAllFit(d, prog, start, base);
    AllFitMeans(|d|, base, |prog|);
  }

  /** A load that fits below 2^32 and inside memory succeeds. */
  lemma {:induction false} WriteFromFits(d: seq<bv8>, prog: seq<Instruction>, start: bv32, base: nat)
    requires base + 4 * |prog| <= |d| && base + 4 * |prog| <= TWO32
    ensures WriteFrom(d, prog, start, base).result == Ok(())
    decreases |prog|
  {
    if prog != [] {
      var n := |prog| - 1;
      WriteFromFits(d, prog[..n], start, base);
      WordAddrValue(base, n);
    }
  }

  /** The memory after the last word of a load that fits. */
  lemma LastWord(d: seq<bv8>, prog: seq<Instruction>, start: bv32, base: nat)
    requires prog != []
    requires base + 4 * |prog| <= |d| && base + 4 * |prog| <= TWO32
    ensures var n := |prog| - 1;
      WriteFrom(d, prog, start, base).mem == PutWord(WriteFrom(d, prog[..n], start, base).mem, base + 4 * n, prog[n])
  {
    var n := |prog| - 1;
    WriteFromFits(d, prog[..n], start, base);
    WordAddrValue(base, n);
  }

  /** Writing word n at base + 4n after words 0..n-1 keeps those and adds it. */
  lemma PlacesStep(m: seq<bv8>, prog: seq<Instruction>, base: nat)
    requires prog != [] && base + 4 * |prog| <= |m|
    requires forall k :: 0 <= k < |prog| - 1 ==> WordAt(m, base + 4 * k) == prog[k]
    ensures var n := |prog| - 1;
      forall k :: 0 <= k < |prog| ==> WordAt(PutWord(m, base + 4 * n, prog[n]), base + 4 * k) == prog[k]
  {
    var n := |prog| - 1;
    forall k | 0 <= k < |prog|
      ensures WordAt(PutWord(m, base + 4 * n, prog[n]), base + 4 * k) == prog[k]
    {
      if k == n {
        ReadAfterWrite(m, base + 4 * n, prog[n]);
      } else {
        ReadOtherWrite(m, base + 4 * n, base + 4 * k, prog[n]);
      }
    }
  }

  /** In a load that fits, word k sits at base + 4k. */
  lemma {:induction false} WriteFromPlaces(d: seq<bv8>, prog: seq<Instruction>, start: bv32, base: nat)
    requires base + 4 * |prog| <= |d| && base + 4 * |prog| <= TWO32
    ensures forall k :: 0 <= k < |prog| ==> WordAt(WriteFrom(d, prog, start, base).mem, base + 4 * k) == prog[k]
    decreases |prog|
  {
    if prog != [] {
      var n := |prog| - 1;
      var q := prog[..n];
      WriteFromPlaces(d, q, start, base);
      var m := WriteFrom(d, q, start, base).mem;
      assert forall k :: 0 <= k < n ==> q[k] == prog[k];
      LastWord(d, prog, start, base);
      PlacesStep(m, prog, base);
    }
  }

  /** A load that fits changes no byte outside [base, base + 4|prog|). */
  lemma {:induction false} WriteFromFrame(d: seq<bv8>, prog: seq<Instruction>, start: bv32, base: nat)
    requires base + 4 * |prog| <= |d| && base + 4 * |prog| <= TWO32
    ensures forall j :: 0 <= j < |d| && (j < base || base + 4 * |prog| <= j) ==> WriteFrom(d, prog, start, base).mem[j] == d[j]
    decreases |prog|
  {
    if prog != [] {
      var n := |prog| - 1;
      WriteFromFrame(d, prog[..n], start, base);
      LastWord(d, prog, start, base);
    }
  }

  /** Once a load has failed, the words after it change nothing. */
  lemma {:induction false} WriteFromSticks(d: seq<bv8>, prog: seq<Instruction>, start: bv32, base: nat, k: nat)
    requires k <= |prog| && WriteFrom(d, prog[..k], start, base).result.Err?
    ensures WriteFrom(d, prog, start, base) == WriteFrom(d, prog[..k], start, base)
    decreases |prog|
  {
    if k == |prog| {
      assert prog[..k] == prog;
    } else {
      var n := |prog| - 1;
      assert prog[..n][..k] == prog[..k];
      WriteFromSticks(d, prog[..n], start, base, k);
    }
  }

  /** The load of prog stopped at word k: the k words before it went in,
      word k does not fit, and the memory is that of the first k words. */
  predicate Stopped(d: seq<bv8>, prog: seq<Instruction>, start: bv32, base: nat, k: nat)
    requires k <= |prog|
  {
    WriteFrom(d, prog[..k], start, base).result.Ok?
      && |d| < WordAddr(base, k) + 4
      && WriteFrom(d, prog, start, base) == Loaded(WriteFrom(d, prog[..k], start, base).mem, Err(OutOfBounds(ProgramAddr(start, k))))
  }

  /** A failed load stopped at the first word k that does not fit: the k
      words before it are written, nothing else is, and the error names
      word k's address. */
  lemma {:induction false} WriteFromStops(d: seq<bv8>, prog: seq<Instruction>, start: bv32, base: nat)
    requires WriteFrom(d, prog, start, base).result.Err?
    ensures exists k :: 0 <= k < |prog| && Stopped(d, prog, start, base, k)
    decreases |prog|
  {
    var n := |prog| - 1;
    var q := prog[..n];
    if WriteFrom(d, q, start, base).result.Err? {
      WriteFromStops(d, q, start, base);
      var k :| 0 <= k < |q| && Stopped(d, q, start, base, k);
      assert q[..k] == prog[..k];
      assert Stopped(d, prog, start, base, k);
    } else {
      assert Stopped(d, prog, start, base, n);
    }
  }

  /** Loading a program that lies below 2^32 and inside memory succeeds,
      puts word k at start + 4k, and changes no other byte. */
  lemma LoadPlaces(d: seq<bv8>, prog: seq<Instruction>, start: bv32)
    requires Unsigned(start) + 4 * |prog| <= |d| && Unsigned(start) + 4 * |prog| <= TWO32
    ensures WriteProgram(d, prog, start).result == Ok(())
    ensures forall k :: 0 <= k < |prog| ==> WordAt(WriteProgram(d, prog, start).mem, Unsigned(start) + 4 * k) == prog[k]
    ensures forall j :: 0 <= j < |d| && (j < Unsigned(start) || Unsigned(start) + 4 * |prog| <= j) ==> WriteProgram(d, prog, start).mem[j] == d[j]
  {
    var base := Unsigned(start);
    WriteFromFits(d, prog, start, base);
    WriteFromPlaces(d, prog, start, base);
    WriteFromFrame(d, prog, start, base);
  }

  /** After such a load, the first fetch from start sees the first word. */
  lemma LoadedFetch(d: seq<bv8>, prog: seq<Instruction>, start: bv32)
    requires prog != []
    requires Unsigned(start) + 4 * |prog| <= |d| && Unsigned(start) + 4 * |prog| <= TWO32
    ensures Read(WriteProgram(d, prog, start).mem, start) == Ok(prog[0])
  {
    WriteFromPlaces(d, prog, start, Unsigned(start));
  }

  class Machine {
    var cpu: Cpu
    var memory: Memory

    ghost predicate Valid()
      reads this, cpu
    {
      cpu.Valid()
    }

    /** The processor's registers and program counter and the memory's bytes. */
    function State(): Sys
      requires Valid()
      reads this, cpu, cpu.reg, memory, memory.data
    {
      cpu.With(memory)
    }

    /** `NewMachine(memSize)`: a fresh processor and memSize zero bytes. */
    constructor(memSize: nat)
      ensures Valid() && fresh(cpu) && fresh(cpu.reg) && fresh(memory) && fresh(memory.data)
      ensures State() == Sys(Core(ZERO_REGS, 0), Zeros(memSize))
    {
      cpu := new Cpu();
      memory := new Memory(memSize);
    }

    /** One processor step on the machine's memory. */
    method Step() returns (r: Result<(), CpuError>)
      requires Valid()
      modifies cpu, cpu.reg, memory.data
      ensures Valid()
      ensures Agrees(r, Next(old(State())), old(State()), State())
    {
      r := cpu.Step(memory);
    }

    /** A new processor and a new zero memory of the same size. (Go's
        `Reset` has an error result that is always nil.) */
    method Reset()
      requires Valid()
      modifies this
      ensures Valid() && fresh(cpu) && fresh(cpu.reg) && fresh(memory) && fresh(memory.data)
      ensures State() == Sys(Core(ZERO_REGS, 0), Zeros(old(memory.data.Length)))
    {
      cpu := new Cpu();
      memory := new Memory(memory.data.Length);
    }

    /** Write the program's words from startAddr on, stopping at the first
        error. */
    method WriteProgramWords(prog: seq<Instruction>, startAddr: bv32) returns (r: Result<(), MemError>)
      modifies memory.data
      ensures Loaded(memory.data[..], r) == WriteProgram(old(memory.data[..]), prog, startAddr)
    {
      ghost var d := memory.data[..];
      ghost var base := Unsigned(startAddr);
      for i := 0 to |prog|
        invariant WriteFrom(d, prog[..i], startAddr, base) == Loaded(memory.data[..], Ok(()))
      {
        WriteFromStep(d, prog, startAddr, base, i);
        ghost var before := memory.data[..];
        var addr := ProgramAddr(startAddr, i);
        ProgramAddrValue(startAddr, i);
        var w := memory.WriteWord(addr, prog[i]);
        assert InBounds(|before|, addr) <==> WordAddr(base, i) + 4 <= |before|;
        assert Loaded(memory.data[..], w) == WriteStep(Loaded(before, Ok(())), addr, WordAddr(base, i), prog[i]);
        if w.Err? {
          WriteFromSticks(d, prog, startAddr, base, i + 1);
          return w;
        }
      }
      assert prog[..|prog|] == prog;
      return Ok(());
    }

    /** Write the program, then set the program counter to startAddr; a
        failed write leaves the program counter as it was. */
    method LoadProgram(prog: seq<Instruction>, startAddr: bv32) returns (r: Result<(), MemError>)
      requires Valid()
      modifies cpu, memory.data
      ensures Valid()
      ensures Loaded(memory.data[..], r) == WriteProgram(old(memory.data[..]), prog, startAddr)
      ensures cpu.pc == if r.Ok? then startAddr else old(cpu.pc)
      ensures cpu.reg[..] == old(cpu.reg[..])
    {
      r := WriteProgramWords(prog, startAddr);
      if r.Err? {
        return;
      }
      cpu.pc := startAddr;
    }
  }

}
