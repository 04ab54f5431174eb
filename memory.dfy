/** The machine's memory: a flat, bounds-checked, little-endian byte buffer
    read and written one 32-bit word at a time.

    The byte buffer is an array updated in place. `WordAt` and `PutWord`
    say, on the buffer's contents, what a read sees and what a write
    leaves; the methods are proved against them, and the lemmas below
    relate reads and writes. */
module ArchMemory {
  import opened Word32
  import opened Results

  /** The one way an access fails: the word does not fit in the buffer. */
  datatype MemError = OutOfBounds(addr: bv32)

  /** The word at address a fits in a buffer of len bytes. Go computes
      `addr+4` in wrapping uint32; this is the comparison on the true
      values (see `GuardAsWritten` for the wrapping one). */
  predicate InBounds(len: nat, addr: bv32) {
    Unsigned(addr) + 4 <= len
  }

  /** The little-endian word stored at bytes a..a+3. */
  function WordAt(d: seq<bv8>, a: nat): (w: bv32)
    requires a + 4 <= |d|
    ensures B0(w) == d[a] && B1(w) == d[a + 1] && B2(w) == d[a + 2] && B3(w) == d[a + 3]
  {
    BytesOf(d[a + 3], d[a + 2], d[a + 1], d[a]);
    FromBytes(d[a + 3], d[a + 2], d[a + 1], d[a])
  }

  /** The buffer after storing w little-endian at bytes a..a+3. */
  function PutWord(d: seq<bv8>, a: nat, w: bv32): (r: seq<bv8>)
    requires a + 4 <= |d|
    ensures |r| == |d|
    ensures r[a] == B0(w) && r[a + 1] == B1(w) && r[a + 2] == B2(w) && r[a + 3] == B3(w)
    ensures forall j :: 0 <= j < |d| && (j < a || a + 4 <= j) ==> r[j] == d[j]
  {
    d[..a] + [B0(w), B1(w), B2(w), B3(w)] + d[a + 4..]
  }

  /** What `ReadWord` returns for a buffer with contents d. */
  function Read(d: seq<bv8>, addr: bv32): (r: Result<bv32, MemError>)
    ensures r.Err? <==> !InBounds(|d|, addr)
  {
    if Unsigned(addr) + 4 > |d| then Err(OutOfBounds(addr)) else Ok(WordAt(d, Unsigned(addr)))
  }

  /** The word read at addr, viewed as an int32 (`LoadWord`). */
  function Load(d: seq<bv8>, addr: bv32): (r: Result<Int32, MemError>)
    ensures r.Err? <==> !InBounds(|d|, addr)
    ensures r.Ok? ==> FromInt(r.value) == WordAt(d, Unsigned(addr))
  {
    match Read(d, addr)
    case Ok(w) => FromIntSigned(w); Ok(Signed(w))
    case Err(e) => Err(e)
  }

  /** A zero-filled buffer of n bytes. */
  function Zeros(n: nat): (d: seq<bv8>)
    ensures |d| == n && forall j :: 0 <= j < n ==> d[j] == 0
  {
    seq(n, _ => 0)
  }

  class Memory {
    var data: array<bv8>

    /** `NewMemory(size)`: size bytes, all zero. */
    constructor(size: nat)
      ensures fresh(data)
      ensures data[..] == Zeros(size)
    {
      data := new bv8[size](_ => 0);
    }

    method ReadWord(addr: bv32) returns (r: Result<bv32, MemError>)
      ensures r == Read(data[..], addr)
    {
      var a := Unsigned(addr);
      if a + 4 > data.Length {
        return Err(OutOfBounds(addr));
      }
      return Ok(FromBytes(data[a + 3], data[a + 2], data[a + 1], data[a]));
    }

    method LoadWord(addr: bv32) returns (r: Result<Int32, MemError>)
      ensures r == Load(data[..], addr)
    {
      var a := Unsigned(addr);
      if a + 4 > data.Length {
        return Err(OutOfBounds(addr));
      }
      return Ok(Signed(FromBytes(data[a + 3], data[a + 2], data[a + 1], data[a])));
    }

    method WriteWord(addr: bv32, value: bv32) returns (r: Result<(), MemError>)
      modifies data
      ensures InBounds(data.Length, addr) ==> r == Ok(()) && data[..] == PutWord(old(data[..]), Unsigned(addr), value)
      ensures !InBounds(data.Length, addr) ==> r == Err(OutOfBounds(addr)) && data[..] == old(data[..])
    {
      var a := Unsigned(addr);
      if a + 4 > data.Length {
        return Err(OutOfBounds(addr));
      }
      data[a], data[a + 1], data[a + 2], data[a + 3] := B0(value), B1(value), B2(value), B3(value);
      assert data[..] == PutWord(old(data[..]), a, value);
      return Ok(());
    }

    /** `StoreWord`: the int32 is stored as its bit pattern, `uint32(value)`. */
    method StoreWord(addr: bv32, value: Int32) returns (r: Result<(), MemError>)
      modifies data
      ensures InBounds(data.Length, addr) ==> r == Ok(()) && data[..] == PutWord(old(data[..]), Unsigned(addr), FromInt(value))
      ensures !InBounds(data.Length, addr) ==> r == Err(OutOfBounds(addr)) && data[..] == old(data[..])
    {
      r := WriteWord(addr, FromInt(value));
    }
  }

  // Reads and writes on the buffer's contents.

  /** A word reads back as written. */
  lemma ReadAfterWrite(d: seq<bv8>, a: nat, w: bv32)
    requires a + 4 <= |d|
    ensures WordAt(PutWord(d, a, w), a) == w
  {
    FromBytesOf(w);
  }

  /** Writing a word elsewhere leaves a word unchanged. */
  lemma ReadOtherWrite(d: seq<bv8>, a: nat, b: nat, w: bv32)
    requires a + 4 <= |d| && b + 4 <= |d|
    requires a + 4 <= b || b + 4 <= a
    ensures WordAt(PutWord(d, a, w), b) == WordAt(d, b)
  {
    var r := PutWord(d, a, w);
    assert r[b] == d[b] && r[b + 1] == d[b + 1] && r[b + 2] == d[b + 2] && r[b + 3] == d[b + 3];
  }

  /** A second write to the same address replaces the first. */
  lemma WriteTwice(d: seq<bv8>, a: nat, v: bv32, w: bv32)
    requires a + 4 <= |d|
    ensures PutWord(PutWord(d, a, v), a, w) == PutWord(d, a, w)
  {
    var p, q := PutWord(PutWord(d, a, v), a, w), PutWord(d, a, w);
    assert forall j :: 0 <= j < |d| ==> p[j] == q[j];
  }

  /** Writing back the word that is there changes nothing. */
  lemma WriteSame(d: seq<bv8>, a: nat)
    requires a + 4 <= |d|
    ensures PutWord(d, a, WordAt(d, a)) == d
  {
    var p := PutWord(d, a, WordAt(d, a));
    assert forall j :: 0 <= j < |d| ==> p[j] == d[j];
  }

  /** `LoadWord` after `StoreWord` of an int32 gives the int32 back. */
  lemma LoadAfterStore(d: seq<bv8>, addr: bv32, v: Int32)
    requires InBounds(|d|, addr)
    ensures Load(PutWord(d, Unsigned(addr), FromInt(v)), addr) == Ok(v)
  {
    ReadAfterWrite(d, Unsigned(addr), FromInt(v));
    SignedFromInt(v);
  }

  /** `ReadWord` after `StoreWord` sees the int32's bit pattern, and
      `LoadWord` after `WriteWord` sees the word as an int32. */
  lemma StoreLoadViews(d: seq<bv8>, addr: bv32, v: Int32, w: bv32)
    requires InBounds(|d|, addr)
    ensures Read(PutWord(d, Unsigned(addr), FromInt(v)), addr) == Ok(FromInt(v))
    ensures Load(PutWord(d, Unsigned(addr), w), addr) == Ok(Signed(w))
  {
    ReadAfterWrite(d, Unsigned(addr), FromInt(v));
    ReadAfterWrite(d, Unsigned(addr), w);
  }

  // The bounds guard as Go computes it.

  /** Go's guard `addr+4 > uint32(len(m.Data))`: the sum wraps at 2^32
      (the length is taken below 2^32 here). */
  predicate GuardAsWritten(len: bv32, addr: bv32) {
    addr + 4 > len
  }

  /** Near the top of the address space the wrapping sum passes the guard
      although the word lies past the end of a 16-byte buffer. */
  lemma GuardWraps()
    ensures !GuardAsWritten(16, 0xFFFF_FFFE)
    ensures !InBounds(16, 0xFFFF_FFFE)
  {
    UnsignedLt(0x10, 0xFFFF_FFFE);
    SixteenValue();
  }

  lemma SixteenValue()
    ensures Unsigned(0x10) == 16
  {
    assert B3(0x10) == 0 && B2(0x10) == 0 && B1(0x10) == 0 && B0(0x10) == 0x10;
  }
}
