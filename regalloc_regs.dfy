/** Index ranges, register classes, the packed 32-bit `Reg` word and spill
    slots of the register allocator (`data_structures.rs`). */
module RegallocRegs {
  import opened Wrappers
  import Arith

  const U32_LIMIT: int := 0x1_0000_0000

  /** A `u32` value; arithmetic that leaves this range is a debug-build panic
      in the source, so the operations below require it to stay inside. */
  type u32 = x: int | 0 <= x < U32_LIMIT

  type u8 = x: int | 0 <= x < 256

  // ---------------------------------------------------------------------------
  // Typed indices (`InstIx`, `BlockIx`, ...) and `MyRange`

  function Plus(ix: u32, delta: u32): (r: u32)
    requires ix + delta < U32_LIMIT
    ensures r - delta == ix
  {
    ix + delta
  }

  /** `minus`: a `u32` subtraction, which panics below zero in a debug
      build. */
  function Minus(ix: u32, delta: u32): (r: Result<u32>)
    ensures r.Success? <==> delta <= ix
    ensures r.Success? ==> r.value + delta == ix
  {
    if delta <= ix then Success(ix - delta) else Failure("attempt to subtract with overflow")
  }

  /** `first`, `first + 1`, ..., `first + n - 1`. */
  ghost function Span(first: int, n: nat): (s: seq<int>)
    decreases n
    ensures |s| == n
    ensures forall k :: 0 <= k < n ==> s[k] == first + k
  {
    if n == 0 then [] else [first] + Span(first + 1, n - 1)
  }

  datatype MyRange = MyRange(first: u32, lastPlus1: u32, len: nat)
  {
    ghost predicate Valid() { lastPlus1 == first + len }

    /** `MyRange::contains`: `first <= t < first + len`. */
    predicate Contains(t: int) { first <= t < first + len }

    /** `MyRange::first`: asserts a non-empty range. */
    function First(): (r: Result<u32>)
      ensures r.Success? <==> len > 0
      ensures r.Success? ==> Contains(r.value) && !Contains(r.value - 1)
    {
      if len > 0 then Success(first) else Failure("assertion failed: self.len() > 0")
    }

    /** `MyRange::last`: the last index of a non-empty range. */
    function Last(): (r: Result<int>)
      ensures r.Success? <==> len > 0
      ensures r.Success? ==> Contains(r.value) && !Contains(r.value + 1)
    {
      if len > 0 then Success(first + len - 1) else Failure("assertion failed: self.len() > 0")
    }
  }

  /** `MyRange::new(from, len)`. */
  function NewRange(from: u32, len: nat): (r: MyRange)
    requires from + len < U32_LIMIT
    ensures r.Valid() && r.first == from && r.len == len
  {
    MyRange(from, from + len, len)
  }

  /** `dotdot`: the range from `ix` up to, but excluding, `lastPlus1`; the
      length is a `u32` subtraction, which panics when `lastPlus1` lies
      below `ix`. */
  function DotDot(ix: u32, lastPlus1: u32): (r: Result<MyRange>)
    ensures r.Success? <==> ix <= lastPlus1
    ensures r.Success? ==> r.value.Valid() && r.value.first == ix
    ensures r.Success? ==> forall t :: r.value.Contains(t) <==> ix <= t < lastPlus1
  {
    if ix <= lastPlus1 then Success(NewRange(ix, lastPlus1 - ix))
    else Failure("attempt to subtract with overflow")
  }

  /** `MyIterator`: yields `next` and advances while `next < last_plus1`. */
  class MyIterator {
    const range: MyRange
    var next: u32

    /** The values the iterator has still to yield, in order. */
    ghost function Remaining(): (s: seq<int>)
      reads this
    {
      if next < range.lastPlus1 then Span(next, range.lastPlus1 - next) else []
    }

    /** `into_iter`: a fresh iterator over the whole range. */
    constructor (r: MyRange)
      requires r.Valid()
      ensures range == r && next == r.first
      ensures Remaining() == Span(r.first, r.len)
    {
      range := r;
      next := r.first;
    }

    /** `next`: the increment happens only below `last_plus1`, itself a
        `u32`, so it never overflows. */
    method Next() returns (item: Option<u32>)
      modifies this
      ensures old(Remaining()) == [] ==> item == None && next == old(next)
      ensures old(Remaining()) != [] ==>
        item == Some(old(Remaining())[0]) && Remaining() == old(Remaining())[1..]
    {
      if next >= range.lastPlus1 {
        item := None;
      } else {
        item := Some(next);
        next := next + 1;
        assert Span(old(next), range.lastPlus1 - old(next))[1..] == Span(next, range.lastPlus1 - next);
      }
    }
  }

  /** `MyRange::contains` holds exactly of the values a fresh iterator yields. */
  lemma {:induction false} ContainsIffYielded(r: MyRange, t: int)
    requires r.Valid()
    ensures r.Contains(t) <==> t in Span(r.first, r.len)
  {
    if r.Contains(t) {
      assert Span(r.first, r.len)[t - r.first] == t;
    }
  }

  // ---------------------------------------------------------------------------
  // Register classes

  datatype RegClass = I32 | F32 | I64 | F64 | V128

  const NUM_REG_CLASSES: nat := 5

  function RcToU32(rc: RegClass): (n: nat)
    ensures n < NUM_REG_CLASSES
  {
    match rc
    case I32 => 0
    case F32 => 1
    case I64 => 2
    case F64 => 3
    case V128 => 4
  }

  /** `rc_from_u32`: the inverse of `RcToU32`; panics above 4. */
  function RcFromU32(n: int): (r: Result<RegClass>)
    ensures r.Success? <==> 0 <= n < NUM_REG_CLASSES
    ensures r.Success? ==> RcToU32(r.value) == n
  {
    if n == 0 then Success(I32)
    else if n == 1 then Success(F32)
    else if n == 2 then Success(I64)
    else if n == 3 then Success(F64)
    else if n == 4 then Success(V128)
    else Failure("rc_from_u32")
  }

  lemma RegClassRoundTrip(rc: RegClass)
    ensures RcFromU32(RcToU32(rc)) == Success(rc)
  {
    match rc
    case I32 =>
    case F32 =>
    case I64 =>
    case F64 =>
    case V128 =>
  }

  // ---------------------------------------------------------------------------
  // Packed registers
  //   virtual: 1 | rc:3 | index:28
  //   real:    0 | rc:3 | unused:12 | enc:8 | index:8
  // The 32-bit word is kept as a number: `(w >> k) & (2^n - 1)` is written
  // `w / 2^k % 2^n`, and the `|` of disjoint fields is their sum.

  datatype Reg = Reg(bits: u32)

  const VIRTUAL_INDEX_LIMIT: int := 0x1000_0000

  /** Bit 31 of the word. */
  predicate IsVirtual(r: Reg) { r.bits / 0x8000_0000 % 2 != 0 }

  predicate IsReal(r: Reg) { !IsVirtual(r) }

  type RealReg = r: Reg | IsReal(r) witness Reg(0)

  type VirtualReg = r: Reg | IsVirtual(r) witness Reg(0x8000_0000)

  /** `(bits >> 28) & 7` through `rc_from_u32`, which panics on 5..7. */
  function GetClass(r: Reg): Result<RegClass>
  {
    RcFromU32(r.bits / 0x1000_0000 % 8)
  }

  /** The low 28 bits of a virtual register, the low 8 of a real one. */
  function GetIndex(r: Reg): nat
  {
    if IsVirtual(r) then r.bits % 0x1000_0000 else r.bits % 0x100
  }

  /** `get_hw_encoding`: bits 8..15; panics on a virtual register. */
  function GetHwEncoding(r: Reg): (e: Result<u8>)
    ensures e.Success? <==> IsReal(r)
  {
    if IsVirtual(r) then Failure("Virtual register does not have a hardware encoding")
    else var enc: u8 := r.bits / 0x100 % 0x100; Success(enc)
  }

  /** `Reg::new_real`: the fields read back as written. */
  function NewReal(rc: RegClass, enc: u8, index: u8): (r: Reg)
    ensures IsReal(r)
    ensures GetClass(r) == Success(rc)
    ensures GetIndex(r) == index
    ensures GetHwEncoding(r) == Success(enc)
  {
    RegClassRoundTrip(rc);
    Reg(RcToU32(rc) * 0x1000_0000 + enc * 0x100 + index)
  }

  /** `Reg::new_virtual`: panics iff the index does not fit in 28 bits. */
  function NewVirtual(rc: RegClass, index: u32): (r: Result<Reg>)
    ensures r.Success? <==> index < VIRTUAL_INDEX_LIMIT
    ensures r.Success? ==>
      IsVirtual(r.value) && GetClass(r.value) == Success(rc) && GetIndex(r.value) == index
    ensures r.Success? ==> GetHwEncoding(r.value).Failure?
  {
    if index >= VIRTUAL_INDEX_LIMIT then Failure("new_virtual(): index too large")
    else
      RegClassRoundTrip(rc);
      Success(Reg(0x8000_0000 + RcToU32(rc) * 0x1000_0000 + index))
  }

  /** Two virtual registers built by `NewVirtual` are equal only when class
      and index are. */
  lemma NewVirtualInjective(rc1: RegClass, i1: u32, rc2: RegClass, i2: u32)
    requires NewVirtual(rc1, i1).Success? && NewVirtual(rc2, i2).Success?
    requires NewVirtual(rc1, i1) == NewVirtual(rc2, i2)
    ensures rc1 == rc2 && i1 == i2
  {
    var r := NewVirtual(rc1, i1).value;
    assert GetClass(r) == Success(rc1) && GetClass(r) == Success(rc2);
  }

  function ToRealReg(r: Reg): (rr: Result<RealReg>)
    ensures rr.Success? <==> IsReal(r)
    ensures rr.Success? ==> rr.value == r
  {
    if IsVirtual(r) then Failure("Reg::to_real_reg: this is a virtual register")
    else var rr: RealReg := r; Success(rr)
  }

  function ToVirtualReg(r: Reg): (vr: Result<VirtualReg>)
    ensures vr.Success? <==> IsVirtual(r)
    ensures vr.Success? ==> vr.value == r
  {
    if IsVirtual(r) then var vr: VirtualReg := r; Success(vr)
    else Failure("Reg::to_virtual_reg: this is a real register")
  }

  /** `apply_defs_or_uses`: a virtual register is replaced by its mapping (a
      missing mapping panics); a real register is left alone. */
  function ApplyDefsOrUses(r: Reg, m: map<VirtualReg, RealReg>): (res: Result<Reg>)
    ensures IsReal(r) ==> res == Success(r)
    ensures IsVirtual(r) ==> (res.Success? <==> r in m)
    ensures IsVirtual(r) && r in m ==> res == Success(m[r]) && IsReal(res.value)
  {
    if IsVirtual(r) then
      if r in m then Success(m[r]) else Failure("Reg::apply_defs_or_uses: no mapping")
    else Success(r)
  }

  /** `apply_mods`: both maps must agree on a virtual register and map it. */
  function ApplyMods(r: Reg, defs: map<VirtualReg, RealReg>, uses: map<VirtualReg, RealReg>): (res: Result<Reg>)
    ensures IsReal(r) ==> res == Success(r)
    ensures IsVirtual(r) ==>
      (res.Success? <==> r in defs && r in uses && defs[r] == uses[r])
    ensures IsVirtual(r) && res.Success? ==> res.value == defs[r]
  {
    if IsVirtual(r) then
      var d := if r in defs then Some(defs[r]) else None;
      var u := if r in uses then Some(uses[r]) else None;
      if d != u then Failure("Reg::apply_mods: inconsistent mappings")
      else if d.Some? then Success(d.value)
      else Failure("Reg::apply: no mapping")
    else Success(r)
  }

  // ---------------------------------------------------------------------------
  // Spill slots

  datatype SpillSlot = SpillSlot(n: u32)

  /** `round_up`: the smallest multiple of `numSlots` at or above the slot;
      `numSlots == 0` fails the source's assertion. */
  function RoundUp(s: SpillSlot, numSlots: u32): (r: Result<SpillSlot>)
    requires s.n + numSlots < U32_LIMIT
    ensures r.Success? <==> numSlots > 0
    ensures r.Success? ==>
      r.value.n % numSlots == 0 && s.n <= r.value.n < s.n + numSlots
  {
    if numSlots == 0 then Failure("assertion failed: num_slots > 0")
    else
      var q := (s.n + numSlots - 1) / numSlots;
      RoundUpBounds(s.n, numSlots, q);
      Success(SpillSlot(q * numSlots))
  }

  lemma RoundUpBounds(a: nat, k: nat, q: nat)
    requires k > 0 && q == (a + k - 1) / k
    ensures (q * k) % k == 0 && a <= q * k < a + k
  {
    var rem := (a + k - 1) % k;
    assert a + k - 1 == q * k + rem;
    Arith.MulMod(q, k);
  }

  function Inc(s: SpillSlot, numSlots: u32): (r: SpillSlot)
    requires s.n + numSlots < U32_LIMIT
    ensures r.n - numSlots == s.n
  {
    SpillSlot(s.n + numSlots)
  }
}
