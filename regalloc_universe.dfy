/** The real register universe of the register allocator
    (`data_structures.rs`): the host's real registers, the allocable prefix
    of them, and one contiguous group of allocable registers per class. */
module RegallocUniverse {
  import opened Wrappers
  import opened RegallocRegs

  /** `RealRegUniverse`, without the registers' printable names.
      `allocableByClass[rc]` is `Some((first, last))`, both ends included,
      when class `rc` has allocable registers. */
  datatype RealRegUniverse = RealRegUniverse(
    regs: seq<Reg>,
    allocable: nat,
    allocableByClass: seq<Option<(nat, nat)>>)

  /** `allocable_by_class` is a fixed array of one entry per class. */
  predicate WellShaped(u: RealRegUniverse) { |u.allocableByClass| == NUM_REG_CLASSES }

  // ---------------------------------------------------------------------------
  // What `check_is_sane` tests, one clause per loop

  /** Every register is real and its index is its slot. */
  predicate IndicesOk(u: RealRegUniverse)
  {
    forall i :: 0 <= i < |u.regs| ==> IsReal(u.regs[i]) && GetIndex(u.regs[i]) == i
  }

  /** `get_class` does not panic on any allocable register. */
  predicate ClassesDefined(u: RealRegUniverse)
  {
    forall i :: 0 <= i < u.allocable && i < |u.regs| ==> GetClass(u.regs[i]).Success?
  }

  /** Some register below slot `n` has class number `rc`. */
  predicate ClassUsedBelow(u: RealRegUniverse, n: nat, rc: nat)
  {
    exists i :: 0 <= i < n && i < |u.regs| && GetClass(u.regs[i]) == RcFromU32(rc)
  }

  /** `regclass_used[rc]`: some allocable register has class number `rc`. */
  predicate ClassUsed(u: RealRegUniverse, rc: nat) { ClassUsedBelow(u, u.allocable, rc) }

  /** Slots `first..end` exist and hold registers of class number `rc`. */
  predicate RangeMatchesBelow(u: RealRegUniverse, rc: nat, first: nat, end: nat)
  {
    forall j :: first <= j < end ==> SlotHasClass(u, j, rc)
  }

  predicate SlotHasClass(u: RealRegUniverse, j: int, rc: nat)
  {
    0 <= j < |u.regs| && GetClass(u.regs[j]) == RcFromU32(rc)
  }

  /** The number of slots the scan of `first..=last` visits. */
  function RangeLen(first: nat, last: nat): nat
  {
    if first <= last then last + 1 - first else 0
  }

  /** The scan of the groups from class number `rc` on: the registers it
      visits, or `None` once the `ok` flag drops or the scan panics. */
  function Scan(u: RealRegUniverse, rc: nat): Option<nat>
    requires WellShaped(u) && rc <= NUM_REG_CLASSES
    decreases NUM_REG_CLASSES - rc
  {
    if rc == NUM_REG_CLASSES then Some(0)
    else
      match u.allocableByClass[rc]
      case None => if ClassUsed(u, rc) then None else Scan(u, rc + 1)
      case Some((first, last)) =>
        if !ClassUsed(u, rc) || !RangeMatchesBelow(u, rc, first, last + 1) then None
        else AddVisited(RangeLen(first, last), Scan(u, rc + 1))
  }

  function AddVisited(n: nat, rest: Option<nat>): (r: Option<nat>)
    ensures r.Some? <==> rest.Some?
    ensures r.Some? ==> r.value == n + rest.value
  {
    if rest.Some? then Some(n + rest.value) else None
  }

  /** What `check_is_sane` accepts without panicking. */
  predicate SaneAsWritten(u: RealRegUniverse)
    requires WellShaped(u)
  {
    |u.regs| <= 256 && u.allocable <= |u.regs| && IndicesOk(u) && ClassesDefined(u) &&
    Scan(u, 0) == Some(u.allocable)
  }

  /** The invariant stated beside `allocable_by_class`: every group lies in
      the allocable prefix. `check_is_sane` does not test it. */
  predicate RangesInAllocable(u: RealRegUniverse)
    requires WellShaped(u)
  {
    forall rc :: 0 <= rc < NUM_REG_CLASSES && u.allocableByClass[rc].Some? ==>
      u.allocableByClass[rc].value.1 < u.allocable
  }

  /** The universe the allocator relies on. */
  predicate Sane(u: RealRegUniverse)
    requires WellShaped(u)
  {
    SaneAsWritten(u) && RangesInAllocable(u)
  }

  // ---------------------------------------------------------------------------
  // The check itself

  /** `check_is_sane`, as written: `true` where it returns, `false` where it
      panics (on the final `!ok`, an index out of bounds or an unknown
      class). */
  method CheckIsSane(u: RealRegUniverse) returns (sane: bool)
    requires WellShaped(u)
    ensures sane == SaneAsWritten(u)
  {
    var ok := CheckIndices(u);
    if !ok {
      return false;
    }
    var defined, used := MarkUsedClasses(u);
    if !defined {
      return false;
    }
    sane := ScanGroups(u, used);
  }

  /** The first loops of `check_is_sane`: the size bounds, and each
      register real with its index equal to its slot. */
  method CheckIndices(u: RealRegUniverse) returns (ok: bool)
    ensures ok == (|u.regs| <= 256 && u.allocable <= |u.regs| && IndicesOk(u))
  {
    var regsLen := |u.regs|;
    ok := regsLen <= 256;
    if ok {
      ok := u.allocable <= regsLen;
    }
    if ok {
      var i := 0;
      while i < regsLen
        invariant 0 <= i <= regsLen
        invariant ok == forall j :: 0 <= j < i ==> IsReal(u.regs[j]) && GetIndex(u.regs[j]) == j
      {
        var reg := u.regs[i];
        if ok && (IsVirtual(reg) || GetIndex(reg) != i) {
          ok := false;
        }
        i := i + 1;
      }
    }
  }

  /** The `regclass_used` loop: marks the class of every allocable
      register; `defined` is false where `get_class` panics. */
  method MarkUsedClasses(u: RealRegUniverse) returns (defined: bool, used: array<bool>)
    requires u.allocable <= |u.regs|
    ensures fresh(used) && used.Length == NUM_REG_CLASSES
    ensures defined == ClassesDefined(u)
    ensures defined ==> forall rc :: 0 <= rc < NUM_REG_CLASSES ==> used[rc] == ClassUsed(u, rc)
  {
    used := new bool[NUM_REG_CLASSES](_ => false);
    var i := 0;
    while i < u.allocable
      invariant 0 <= i <= u.allocable
      invariant forall j :: 0 <= j < i ==> GetClass(u.regs[j]).Success?
      invariant forall rc :: 0 <= rc < NUM_REG_CLASSES ==> used[rc] == ClassUsedBelow(u, i, rc)
    {
      var c := GetClass(u.regs[i]);
      if c.Failure? {
        // `rc_from_u32` panics on the class field.
        return false, used;
      }
      RegClassRoundTrip(c.value);
      forall rc | 0 <= rc < NUM_REG_CLASSES
        ensures ClassUsedBelow(u, i + 1, rc) == (ClassUsedBelow(u, i, rc) || rc == RcToU32(c.value))
      {
        if ClassUsedBelow(u, i + 1, rc) && !ClassUsedBelow(u, i, rc) {
          var j :| 0 <= j < i + 1 && j < |u.regs| && GetClass(u.regs[j]) == RcFromU32(rc);
          assert j == i;
        }
      }
      used[RcToU32(c.value)] := true;
      i := i + 1;
    }
    defined := true;
  }

  /** The last loop: scans forward through each group, counting the
      registers visited, and compares the count with `allocable`. */
  method ScanGroups(u: RealRegUniverse, used: array<bool>) returns (ok: bool)
    requires WellShaped(u) && used.Length == NUM_REG_CLASSES
    requires forall rc :: 0 <= rc < NUM_REG_CLASSES ==> used[rc] == ClassUsed(u, rc)
    ensures ok == (Scan(u, 0) == Some(u.allocable))
  {
    ok := true;
    var visited: nat := 0;
    var rc := 0;
    while rc < NUM_REG_CLASSES
      invariant 0 <= rc <= NUM_REG_CLASSES
      decreases NUM_REG_CLASSES - rc
      invariant Scan(u, 0) == if ok then AddVisited(visited, Scan(u, rc)) else None
    {
      match u.allocableByClass[rc] {
      case None =>
        if used[rc] {
          ok := false;
        }
      case Some((first, last)) =>
        if !used[rc] {
          ok := false;
        }
        if ok {
          var matches, count := ScanGroup(u, rc, first, last);
          if !matches {
            ok := false;
          }
          visited := visited + count;
        }
      }
      rc := rc + 1;
    }
    if ok && visited != u.allocable {
      ok := false;
    }
  }

  /** The `for i in first..last + 1` loop of `check_is_sane`: whether every
      slot of the group holds a register of class number `rc`, and how many
      slots it visits. `false` also where indexing `regs` panics. */
  method ScanGroup(u: RealRegUniverse, rc: nat, first: nat, last: nat) returns (matches: bool, visited: nat)
    ensures matches == RangeMatchesBelow(u, rc, first, last + 1)
    ensures visited == RangeLen(first, last)
  {
    matches := true;
    visited := 0;
    var j := first;
    while j < last + 1
      invariant first <= j && (j <= last + 1 || j == first)
      invariant matches == RangeMatchesBelow(u, rc, first, j)
      invariant visited == j - first
    {
      if j >= |u.regs| {
        // Indexing `regs` out of bounds panics.
        assert !SlotHasClass(u, j, rc);
        return false, RangeLen(first, last);
      }
      var reg := u.regs[j];
      if matches && RcFromU32(rc) != GetClass(reg) {
        matches := false;
      }
      assert RangeMatchesBelow(u, rc, first, j + 1) ==
        (RangeMatchesBelow(u, rc, first, j) && SlotHasClass(u, j, rc));
      visited := visited + 1;
      j := j + 1;
    }
  }

  /** `check_is_sane` with the missing test added: it also refuses a group
      that reaches past the allocable prefix. */
  method CheckIsSaneCorrected(u: RealRegUniverse) returns (sane: bool)
    requires WellShaped(u)
    ensures sane == Sane(u)
  {
    sane := CheckIsSane(u);
    var rc := 0;
    while rc < NUM_REG_CLASSES && sane
      invariant 0 <= rc <= NUM_REG_CLASSES
      decreases NUM_REG_CLASSES - rc
      invariant sane == (SaneAsWritten(u) && forall k :: 0 <= k < rc && u.allocableByClass[k].Some? ==>
                           u.allocableByClass[k].value.1 < u.allocable)
    {
      match u.allocableByClass[rc] {
      case None =>
      case Some((_, last)) =>
        if last >= u.allocable {
          sane := false;
        }
      }
      rc := rc + 1;
    }
  }

  // ---------------------------------------------------------------------------
  // What a sane universe guarantees

  /** The slots of class number `rc`'s group. */
  ghost function ClassRange(u: RealRegUniverse, rc: nat): set<int>
    requires WellShaped(u) && rc < NUM_REG_CLASSES
  {
    match u.allocableByClass[rc]
    case None => {}
    case Some((first, last)) => Interval(first, last + 1)
  }

  ghost function Interval(a: int, b: int): set<int>
  {
    set i | a <= i < b && Between(a, i, b)
  }

  predicate Between(a: int, i: int, b: int) { a <= i < b }

  lemma {:induction false} IntervalCard(a: int, b: int)
    ensures |Interval(a, b)| == if a <= b then b - a else 0
    decreases b - a
  {
    if a < b {
      assert Interval(a, b) == Interval(a, b - 1) + {b - 1};
      IntervalCard(a, b - 1);
    } else {
      assert Interval(a, b) == {};
    }
  }

  /** The slots of the groups of class numbers `rc` and above. */
  ghost function Covered(u: RealRegUniverse, rc: nat): set<int>
    requires WellShaped(u) && rc <= NUM_REG_CLASSES
    decreases NUM_REG_CLASSES - rc
  {
    if rc == NUM_REG_CLASSES then {} else ClassRange(u, rc) + Covered(u, rc + 1)
  }

  /** A group the scan passes holds registers of its class only, one per
      slot it visits. */
  lemma ClassRangeFacts(u: RealRegUniverse, rc: nat)
    requires WellShaped(u) && rc < NUM_REG_CLASSES && Scan(u, rc).Some?
    ensures Scan(u, rc + 1).Some?
    ensures |ClassRange(u, rc)| + Scan(u, rc + 1).value == Scan(u, rc).value
    ensures forall i :: i in ClassRange(u, rc) ==>
      0 <= i < |u.regs| && GetClass(u.regs[i]) == RcFromU32(rc)
  {
    match u.allocableByClass[rc]
    case None =>
    case Some((first, last)) =>
      IntervalCard(first, last + 1);
      forall i | i in ClassRange(u, rc)
        ensures 0 <= i < |u.regs| && GetClass(u.regs[i]) == RcFromU32(rc)
      {
        assert Between(first, i, last + 1) && SlotHasClass(u, i, rc);
      }
  }

  /** A successful scan visits each covered slot once, and each covered slot
      holds a register of the class of its group. */
  lemma {:induction false} ScanCovered(u: RealRegUniverse, rc: nat)
    requires WellShaped(u) && rc <= NUM_REG_CLASSES && Scan(u, rc).Some?
    ensures |Covered(u, rc)| == Scan(u, rc).value
    ensures forall i :: i in Covered(u, rc) ==>
      0 <= i < |u.regs| && GetClass(u.regs[i]).Success? && RcToU32(GetClass(u.regs[i]).value) >= rc
    decreases NUM_REG_CLASSES - rc
  {
    if rc < NUM_REG_CLASSES {
      ClassRangeFacts(u, rc);
      ScanCovered(u, rc + 1);
      var here, later := ClassRange(u, rc), Covered(u, rc + 1);
      assert here * later == {} by {
        forall i | i in here ensures i !in later {
          assert RcToU32(GetClass(u.regs[i]).value) == rc;
        }
      }
      assert |here + later| == |here| + |later|;
    }
  }

  /** Over a sane universe the groups partition the allocable prefix: every
      allocable register lies in the group of its own class and in no other. */
  lemma SaneGroupsPartition(u: RealRegUniverse, i: nat, rc: nat)
    requires WellShaped(u) && Sane(u)
    requires i < u.allocable && rc < NUM_REG_CLASSES
    ensures i in ClassRange(u, rc) <==> GetClass(u.regs[i]) == RcFromU32(rc)
  {
    var k := PrefixCovered(u, i);
    ScanSome(u, 0, rc);
    ClassRangeFacts(u, rc);
    if GetClass(u.regs[i]) == RcFromU32(rc) {
      assert RcToU32(GetClass(u.regs[i]).value) == rc == k;
    }
  }

  /** Every allocable slot of a sane universe lies in some group. */
  lemma PrefixCovered(u: RealRegUniverse, i: nat) returns (k: nat)
    requires WellShaped(u) && Sane(u) && i < u.allocable
    ensures k < NUM_REG_CLASSES && i in ClassRange(u, k)
    ensures i < |u.regs| && GetClass(u.regs[i]) == RcFromU32(k)
  {
    AllocableCovered(u);
    assert Between(0, i, u.allocable);
    k := CoveringGroup(u, 0, i);
  }

  /** In a sane universe the groups cover exactly the allocable prefix. */
  lemma AllocableCovered(u: RealRegUniverse)
    requires WellShaped(u) && Sane(u)
    ensures Covered(u, 0) == Interval(0, u.allocable)
  {
    ScanCovered(u, 0);
    IntervalCard(0, u.allocable);
    CoveredInPrefix(u, 0);
    SubsetOfSameSize(Covered(u, 0), Interval(0, u.allocable));
  }

  lemma {:induction false} ScanSome(u: RealRegUniverse, k: nat, rc: nat)
    requires WellShaped(u) && k <= rc <= NUM_REG_CLASSES && Scan(u, k).Some?
    ensures Scan(u, rc).Some?
    decreases rc - k
  {
    if k < rc {
      match u.allocableByClass[k] {
        case None =>
        case Some(_) =>
      }
      assert Scan(u, k + 1).Some?;
      ScanSome(u, k + 1, rc);
    }
  }

  /** In a universe whose groups are allocable, the covered slots are. */
  lemma {:induction false} CoveredInPrefix(u: RealRegUniverse, rc: nat)
    requires WellShaped(u) && RangesInAllocable(u) && rc <= NUM_REG_CLASSES
    ensures Covered(u, rc) <= Interval(0, u.allocable)
    decreases NUM_REG_CLASSES - rc
  {
    if rc < NUM_REG_CLASSES {
      CoveredInPrefix(u, rc + 1);
    }
  }

  /** The group that covers a covered slot. */
  lemma {:induction false} CoveringGroup(u: RealRegUniverse, rc: nat, i: int) returns (k: nat)
    requires WellShaped(u) && rc <= NUM_REG_CLASSES && i in Covered(u, rc)
    requires Scan(u, rc).Some?
    ensures rc <= k < NUM_REG_CLASSES && i in ClassRange(u, k)
    ensures 0 <= i < |u.regs| && GetClass(u.regs[i]) == RcFromU32(k)
    decreases NUM_REG_CLASSES - rc
  {
    ClassRangeFacts(u, rc);
    if i in ClassRange(u, rc) {
      k := rc;
    } else {
      k := CoveringGroup(u, rc + 1, i);
    }
  }

  lemma SubsetOfSameSize(a: set<int>, b: set<int>)
    requires a <= b && |a| == |b|
    ensures a == b
  {
    assert b == a + (b - a);
    assert |b - a| == 0;
    assert b - a == {};
  }

  // ---------------------------------------------------------------------------
  // The finding: a universe `check_is_sane` accepts but should not

  /** Three I32 registers (`Reg(i)` is `NewReal(I32, 0, i)`), two allocable, with the I32 group claimed to be
      slots 1 and 2. */
  function SlidGroupUniverse(): (u: RealRegUniverse)
    ensures WellShaped(u)
  {
    RealRegUniverse(
      [Reg(0), Reg(1), Reg(2)],
      2,
      [Some((1, 2)), None, None, None, None])
  }

  /** `check_is_sane` accepts a group that leaves allocable slot 0 out and
      takes in the non-allocable slot 2, because the count of visited
      registers still matches. */
  lemma AsWrittenAcceptsSlidGroup()
    ensures var u := SlidGroupUniverse();
      SaneAsWritten(u) && !Sane(u) &&
      GetClass(u.regs[0]) == RcFromU32(0) && 0 !in ClassRange(u, 0) && 2 in ClassRange(u, 0)
  {
    var u := SlidGroupUniverse();
    assert GetClass(u.regs[0]) == RcFromU32(0);
    assert ClassUsed(u, 0);
    forall rc | 1 <= rc < NUM_REG_CLASSES ensures !ClassUsed(u, rc) {
      forall j | 0 <= j < 2 ensures GetClass(u.regs[j]) != RcFromU32(rc) {
        assert GetClass(u.regs[j]) == Success(I32);
      }
    }
    assert Scan(u, 1) == Some(0);
    assert RangeMatchesBelow(u, 0, 1, 3);
    assert Scan(u, 0) == Some(2);
    assert 0 !in Interval(1, 3) && 2 in Interval(1, 3);
  }
}
