/** The linear scan allocator (`linear_scan.rs`): live intervals over
    sorted fragment lists, the active/inactive/handled partition, the
    choice of a free register and the main loop. */
module LinearScan {
  import opened Wrappers
  import opened RegallocRegs
  import opened RegallocFrags
  import opened RegallocSorted
  import opened RegallocUniverse
  import opened SeqFacts

  // ---------------------------------------------------------------------------
  // Live intervals

  /** A fixed interval is a real register's live range; a virtual one is a
      virtual register's, with the real register allocated to it so far. */
  datatype LiveIntervalKind =
    | Fixed(rreg: Reg, frags: seq<nat>)
    | Virtual(vreg: Reg, chosen: Option<Reg>, frags: seq<nat>)

  datatype LiveInterval = LiveInterval(id: nat, kind: LiveIntervalKind)

  function AllocatedRegister(k: LiveIntervalKind): Option<Reg>
  {
    match k
    case Fixed(r, _) => Some(r)
    case Virtual(_, a, _) => a
  }

  /** `fixed_reg`: the register of a fixed interval, and only of one. */
  function FixedReg(k: LiveIntervalKind): (r: Option<Reg>)
    ensures r.Some? <==> k.Fixed?
    ensures r.Some? ==> r == AllocatedRegister(k)
  {
    if k.Fixed? then AllocatedRegister(k) else None
  }

  /** `reg_class`: the class of the real or virtual register; `get_class`
      panics on the unused class numbers. */
  function RegClassOf(k: LiveIntervalKind): Result<RegClass>
  {
    match k
    case Fixed(r, _) => GetClass(r)
    case Virtual(v, _, _) => GetClass(v)
  }

  /** What the analysis hands to the allocator: a non-empty sorted list of
      fragments (`start_point` and `end_point` unwrap its ends). */
  predicate IntervalOk(fenv: FragEnv, k: LiveIntervalKind)
  {
    k.frags != [] && IxsIn(fenv, k.frags) && Sorted(fenv, k.frags)
  }

  function StartPoint(fenv: FragEnv, k: LiveIntervalKind): InstPoint
    requires IntervalOk(fenv, k)
  {
    fenv[k.frags[0]].first
  }

  function EndPoint(fenv: FragEnv, k: LiveIntervalKind): InstPoint
    requires IntervalOk(fenv, k)
  {
    fenv[k.frags[|k.frags| - 1]].last
  }

  /** `covers`: some fragment of the list contains `pos`. */
  function Covers(fenv: FragEnv, frags: seq<nat>, pos: InstPoint): bool
    requires IxsIn(fenv, frags)
  {
    frags != [] && (FragContains(fenv[frags[0]], pos) || Covers(fenv, frags[1..], pos))
  }

  lemma {:induction false} CoversIff(fenv: FragEnv, frags: seq<nat>, pos: InstPoint)
    requires IxsIn(fenv, frags)
    ensures Covers(fenv, frags, pos) <==>
      exists k :: 0 <= k < |frags| && FragContains(fenv[frags[k]], pos)
  {
    if frags != [] {
      CoversIff(fenv, frags[1..], pos);
      if exists k :: 0 <= k < |frags| && FragContains(fenv[frags[k]], pos) {
        var k :| 0 <= k < |frags| && FragContains(fenv[frags[k]], pos);
        if k > 0 {
          assert frags[1..][k - 1] == frags[k];
        }
      }
      if exists k :: 0 <= k < |frags| - 1 && FragContains(fenv[frags[1..][k]], pos) {
        var k :| 0 <= k < |frags| - 1 && FragContains(fenv[frags[1..][k]], pos);
        assert frags[1..][k] == frags[k + 1];
      }
    }
  }

  /** A covered point lies between the interval's start and end points. */
  lemma CoveredWithinBounds(fenv: FragEnv, k: LiveIntervalKind, pos: InstPoint)
    requires IntervalOk(fenv, k) && EnvWellFormed(fenv)
    requires Covers(fenv, k.frags, pos)
    ensures Le(StartPoint(fenv, k), pos) && Le(pos, EndPoint(fenv, k))
  {
    CoversIff(fenv, k.frags, pos);
    var j :| 0 <= j < |k.frags| && FragContains(fenv[k.frags[j]], pos);
    SortedSpan(fenv, k.frags, j, pos);
  }

  /** A point of fragment `j` of a sorted list lies between the start of
      the first fragment and the end of the last. */
  lemma SortedSpan(fenv: FragEnv, frags: seq<nat>, j: nat, pos: InstPoint)
    requires IxsIn(fenv, frags) && EnvWellFormed(fenv) && Sorted(fenv, frags) && j < |frags|
    requires FragContains(fenv[frags[j]], pos)
    ensures Le(fenv[frags[0]].first, pos) && Le(pos, fenv[frags[|frags| - 1]].last)
  {
    SortedIncreasing(fenv, frags);
    var f0, fj, fn := fenv[frags[0]], fenv[frags[j]], fenv[frags[|frags| - 1]];
    BetweenOrdered(f0, fj, fn, pos, j == 0, j == |frags| - 1);
  }

  /** A point of `fj` lies between the start of an earlier fragment `f0`
      and the end of a later fragment `fn`. */
  lemma BetweenOrdered(f0: RangeFrag, fj: RangeFrag, fn: RangeFrag, pos: InstPoint, first: bool, last: bool)
    requires WellFormed(f0) && WellFormed(fn) && FragContains(fj, pos)
    requires first ==> f0 == fj
    requires !first ==> CmpFrags(f0, fj) == Some(Less)
    requires last ==> fn == fj
    requires !last ==> CmpFrags(fj, fn) == Some(Less)
    ensures Le(f0.first, pos) && Le(pos, fn.last)
  {
  }

  // ---------------------------------------------------------------------------
  // intersects_with

  /** The walk of `intersects_with`: the first point where a fragment of
      `xs` meets one of `ys`, found by stepping past whichever fragment lies
      wholly before the other. */
  function Intersection(fenv: FragEnv, xs: seq<nat>, ys: seq<nat>): Option<InstPoint>
    requires IxsIn(fenv, xs) && IxsIn(fenv, ys)
    decreases |xs| + |ys|
  {
    if xs == [] || ys == [] then None
    else
      var cur, other := fenv[xs[0]], fenv[ys[0]];
      match CmpFrags(cur, other)
      case None => Some(if Lt(cur.first, other.first) then other.first else cur.first)
      case Some(Less) => Intersection(fenv, xs[1..], ys)
      case Some(Equal) => Some(cur.first)
      case Some(Greater) => Intersection(fenv, xs, ys[1..])
  }

  /** `intersects_with` finds nothing exactly where `add` could merge the two
      lists. */
  lemma {:induction false} IntersectionNoneIffMergeable(fenv: FragEnv, xs: seq<nat>, ys: seq<nat>)
    requires IxsIn(fenv, xs) && IxsIn(fenv, ys)
    ensures Intersection(fenv, xs, ys).None? <==> Merge(fenv, xs, ys).Some?
    decreases |xs| + |ys|
  {
    if xs != [] && ys != [] {
      match CmpFrags(fenv[xs[0]], fenv[ys[0]])
      case Some(Less) => IntersectionNoneIffMergeable(fenv, xs[1..], ys);
      case Some(Greater) => IntersectionNoneIffMergeable(fenv, xs, ys[1..]);
      case _ =>
    }
  }

  /** Two sorted fragment lists intersect exactly when some fragment of one
      overlaps some fragment of the other. */
  lemma IntersectionNoneIffDisjoint(fenv: FragEnv, xs: seq<nat>, ys: seq<nat>)
    requires IxsIn(fenv, xs) && IxsIn(fenv, ys) && EnvWellFormed(fenv)
    requires Sorted(fenv, xs) && Sorted(fenv, ys)
    ensures Intersection(fenv, xs, ys).None? <==>
      !exists i, j :: 0 <= i < |xs| && 0 <= j < |ys| && Overlap(fenv[xs[i]], fenv[ys[j]])
  {
    IntersectionNoneIffMergeable(fenv, xs, ys);
    MergeFailsIffOverlap(fenv, xs, ys);
  }

  /** The point found lies in a fragment of each list: the later start of
      two partially overlapping fragments, or the common start of two equal
      ones. */
  lemma {:induction false} IntersectionIsCommonPoint(fenv: FragEnv, xs: seq<nat>, ys: seq<nat>)
    requires IxsIn(fenv, xs) && IxsIn(fenv, ys) && EnvWellFormed(fenv)
    requires Intersection(fenv, xs, ys).Some?
    ensures var p := Intersection(fenv, xs, ys).value;
      exists i, j :: 0 <= i < |xs| && 0 <= j < |ys| &&
        FragContains(fenv[xs[i]], p) && FragContains(fenv[ys[j]], p)
    decreases |xs| + |ys|
  {
    var p := Intersection(fenv, xs, ys).value;
    var cur, other := fenv[xs[0]], fenv[ys[0]];
    match CmpFrags(cur, other)
    case Some(Less) =>
      IntersectionIsCommonPoint(fenv, xs[1..], ys);
      var i, j :| 0 <= i < |xs| - 1 && 0 <= j < |ys| &&
        FragContains(fenv[xs[1..][i]], p) && FragContains(fenv[ys[j]], p);
      assert xs[1..][i] == xs[i + 1];
    case Some(Greater) =>
      IntersectionIsCommonPoint(fenv, xs, ys[1..]);
      var i, j :| 0 <= i < |xs| && 0 <= j < |ys| - 1 &&
        FragContains(fenv[xs[i]], p) && FragContains(fenv[ys[1..][j]], p);
      assert ys[1..][j] == ys[j + 1];
    case _ =>
      assert WellFormed(cur) && WellFormed(other);
      assert FragContains(fenv[xs[0]], p) && FragContains(fenv[ys[0]], p);
  }

  /** `intersects_with`: the two indices step through the lists until the
      current fragments are not strictly ordered. */
  method IntersectsWith(fenv: FragEnv, xs: seq<nat>, ys: seq<nat>) returns (r: Option<InstPoint>)
    requires IxsIn(fenv, xs) && IxsIn(fenv, ys)
    ensures r == Intersection(fenv, xs, ys)
  {
    var i, otherI := 0, 0;
    assert xs[i..] == xs && ys[otherI..] == ys;
    while i < |xs| && otherI < |ys|
      invariant 0 <= i <= |xs| && 0 <= otherI <= |ys|
      invariant Intersection(fenv, xs, ys) == Intersection(fenv, xs[i..], ys[otherI..])
      decreases |xs| - i + |ys| - otherI
    {
      var cur, other := fenv[xs[i]], fenv[ys[otherI]];
      assert xs[i..][0] == xs[i] && ys[otherI..][0] == ys[otherI];
      assert xs[i..][1..] == xs[i + 1..] && ys[otherI..][1..] == ys[otherI + 1..];
      match CmpFrags(cur, other) {
        case None =>
          return Some(if Lt(cur.first, other.first) then other.first else cur.first);
        case Some(Less) =>
          i := i + 1;
        case Some(Equal) =>
          return Some(cur.first);
        case Some(Greater) =>
          otherI := otherI + 1;
      }
    }
    return None;
  }

  // ---------------------------------------------------------------------------
  // update_state

  /** Where `update_state` sends an interval, given the current start. */
  datatype Dest = ToHandled | ToActive | ToInactive

  function Classify(fenv: FragEnv, k: LiveIntervalKind, start: InstPoint): Dest
    requires IntervalOk(fenv, k)
  {
    if Lt(EndPoint(fenv, k), start) then ToHandled
    else if Covers(fenv, k.frags, start) then ToActive
    else ToInactive
  }

  /** An interval is handled when it ends before the current start, active
      when it covers the start, and inactive when it neither ended nor
      covers it. */
  lemma ClassifyMeaning(fenv: FragEnv, k: LiveIntervalKind, start: InstPoint)
    requires IntervalOk(fenv, k) && EnvWellFormed(fenv)
    ensures Classify(fenv, k, start) == ToHandled <==> Lt(EndPoint(fenv, k), start)
    ensures Classify(fenv, k, start) == ToActive <==> Covers(fenv, k.frags, start)
    ensures Classify(fenv, k, start) == ToInactive <==>
      !Lt(EndPoint(fenv, k), start) && !Covers(fenv, k.frags, start)
  {
    if Covers(fenv, k.frags, start) {
      CoveredWithinBounds(fenv, k, start);
    }
  }

  predicate IdsIn(ids: seq<nat>, n: nat)
  {
    forall k :: 0 <= k < |ids| ==> ids[k] < n
  }

  /** Interval `k` has id `k` and a usable fragment list. */
  predicate IntervalsOk(fenv: FragEnv, ints: seq<LiveInterval>)
  {
    forall k :: 0 <= k < |ints| ==> ints[k].id == k && IntervalOk(fenv, ints[k].kind)
  }

  /** The ids of `ids`, in order, that go to `d`. */
  function Filter(fenv: FragEnv, ints: seq<LiveInterval>, ids: seq<nat>, start: InstPoint, d: Dest): (r: seq<nat>)
    requires IntervalsOk(fenv, ints) && IdsIn(ids, |ints|)
    ensures IdsIn(r, |ints|)
    decreases |ids|
  {
    if ids == [] then []
    else
      var last := ids[|ids| - 1];
      Filter(fenv, ints, ids[..|ids| - 1], start, d) +
        (if Classify(fenv, ints[last].kind, start) == d then [last] else [])
  }

  /** An id goes to `d` exactly when it was in `ids` and is classified `d`. */
  lemma {:induction false} FilterMembers(fenv: FragEnv, ints: seq<LiveInterval>, ids: seq<nat>, start: InstPoint, d: Dest, x: nat)
    requires IntervalsOk(fenv, ints) && IdsIn(ids, |ints|)
    ensures x in Filter(fenv, ints, ids, start, d) <==>
      x in ids && Classify(fenv, ints[x].kind, start) == d
    decreases |ids|
  {
    if ids != [] {
      var init := ids[..|ids| - 1];
      FilterMembers(fenv, ints, init, start, d, x);
      assert ids == init + [ids[|ids| - 1]];
    }
  }

  /** The three destinations split `ids`: no id is lost or duplicated. */
  lemma {:induction false} FilterPartition(fenv: FragEnv, ints: seq<LiveInterval>, ids: seq<nat>, start: InstPoint)
    requires IntervalsOk(fenv, ints) && IdsIn(ids, |ints|)
    ensures multiset(ids) ==
      multiset(Filter(fenv, ints, ids, start, ToHandled)) +
      multiset(Filter(fenv, ints, ids, start, ToActive)) +
      multiset(Filter(fenv, ints, ids, start, ToInactive))
    decreases |ids|
  {
    if ids != [] {
      var init, last := ids[..|ids| - 1], ids[|ids| - 1];
      FilterPartition(fenv, ints, init, start);
      LastMultiset(ids);
      var c := Classify(fenv, ints[last].kind, start);
      SplitSnoc(init, last, c,
        Filter(fenv, ints, init, start, ToHandled), Filter(fenv, ints, init, start, ToActive),
        Filter(fenv, ints, init, start, ToInactive));
    }
  }

  /** One more id, sent to one of the three places, keeps the split. */
  lemma SplitSnoc(init: seq<nat>, last: nat, c: Dest, h: seq<nat>, a: seq<nat>, i: seq<nat>)
    requires multiset(init) == multiset(h) + multiset(a) + multiset(i)
    ensures multiset(init) + multiset{last} ==
      multiset(h + (if c == ToHandled then [last] else [])) +
      multiset(a + (if c == ToActive then [last] else [])) +
      multiset(i + (if c == ToInactive then [last] else []))
  {
    match c
    case ToHandled => assert a + [] == a && i + [] == i;
    case ToActive => assert h + [] == h && i + [] == i;
    case ToInactive => assert h + [] == h && a + [] == a;
  }

  /** `update_state` as a whole loses and duplicates no id. */
  lemma UpdateKeepsIds(fenv: FragEnv, ints: seq<LiveInterval>, act: seq<nat>, inact: seq<nat>, hand: seq<nat>, start: InstPoint,
                       act': seq<nat>, inact': seq<nat>, hand': seq<nat>)
    requires IntervalsOk(fenv, ints) && IdsIn(act, |ints|) && IdsIn(inact, |ints|)
    requires act' == Filter(fenv, ints, act, start, ToActive) + Filter(fenv, ints, inact, start, ToActive)
    requires inact' == Filter(fenv, ints, act, start, ToInactive) + Filter(fenv, ints, inact, start, ToInactive)
    requires hand' == hand + Filter(fenv, ints, act, start, ToHandled) + Filter(fenv, ints, inact, start, ToHandled)
    ensures multiset(act' + inact' + hand') == multiset(act + inact + hand)
  {
    FilterPartition(fenv, ints, act, start);
    FilterPartition(fenv, ints, inact, start);
  }

  lemma FilterSnoc(fenv: FragEnv, ints: seq<LiveInterval>, ids: seq<nat>, i: nat, start: InstPoint, d: Dest)
    requires IntervalsOk(fenv, ints) && IdsIn(ids, |ints|) && i < |ids|
    ensures Filter(fenv, ints, ids[..i + 1], start, d) ==
      Filter(fenv, ints, ids[..i], start, d) +
        (if Classify(fenv, ints[ids[i]].kind, start) == d then [ids[i]] else [])
  {
    assert ids[..i + 1][..i] == ids[..i];
  }

  // ---------------------------------------------------------------------------
  // RegisterMapping

  /** A value per allocable register of one class: entry `k` belongs to the
      register whose index is `offset + k`. */
  datatype RegisterMapping<T> = RegisterMapping(offset: nat, regs: seq<(Reg, T)>)

  /** What `with_default` builds: the class's group of the universe, each
      register paired with `init`; slicing the universe panics when the
      group does not lie in it. */
  function DefaultMapping<T>(rc: RegClass, u: RealRegUniverse, init: T): Result<RegisterMapping<T>>
    requires WellShaped(u)
  {
    match u.allocableByClass[RcToU32(rc)]
    case None => Success(RegisterMapping(0, []))
    case Some((first, last)) =>
      if last < |u.regs| && first <= last + 1 then
        Success(RegisterMapping(first, seq(last + 1 - first, k requires 0 <= k < last + 1 - first => (u.regs[first + k], init))))
      else Failure("range end index out of range for slice")
  }

  /** `index`: the entry of `r`; the subtraction or the vector index panics
      for a register outside the group. */
  function Index<T>(m: RegisterMapping<T>, r: Reg): (s: Result<nat>)
    ensures s.Success? <==> m.offset <= GetIndex(r) < m.offset + |m.regs|
    ensures s.Success? ==> s.value < |m.regs| && m.offset + s.value == GetIndex(r)
  {
    if m.offset <= GetIndex(r) && GetIndex(r) - m.offset < |m.regs| then Success(GetIndex(r) - m.offset)
    else Failure("index out of bounds")
  }

  /** Over a sane universe, the mapping of a class holds every register of
      the class's group once, and `index` finds each at its own entry. */
  lemma MappingFindsGroup<T>(rc: RegClass, u: RealRegUniverse, init: T, i: nat)
    requires WellShaped(u) && Sane(u)
    requires i in ClassRange(u, RcToU32(rc))
    ensures DefaultMapping(rc, u, init).Success?
    ensures var m := DefaultMapping(rc, u, init).value;
      Index(m, u.regs[i]).Success? && m.regs[Index(m, u.regs[i]).value] == (u.regs[i], init)
  {
    var c := RcToU32(rc);
    var (first, last) := u.allocableByClass[c].value;
    assert Between(first, i, last + 1);
    assert last < u.allocable <= |u.regs|;
    var m := DefaultMapping(rc, u, init).value;
    assert m.offset == first && |m.regs| == last + 1 - first;
    assert GetIndex(u.regs[i]) == i;
    assert m.regs[i - first] == (u.regs[i], init);
  }

  /** `with_default`: pushes one entry per register of the group. */
  method WithDefault<T>(rc: RegClass, u: RealRegUniverse, init: T) returns (r: Result<RegisterMapping<T>>)
    requires WellShaped(u)
    ensures r == DefaultMapping(rc, u, init)
  {
    var regs: seq<(Reg, T)> := [];
    var offset := 0;
    match u.allocableByClass[RcToU32(rc)] {
      case None =>
      case Some((first, last)) =>
        if !(last < |u.regs| && first <= last + 1) {
          return Failure("range end index out of range for slice");
        }
        offset := first;
        for k := 0 to last + 1 - first
          invariant |regs| == k
          invariant forall j :: 0 <= j < k ==> regs[j] == (u.regs[first + j], init)
        {
          regs := regs + [(u.regs[first + k], init)];
        }
        assert regs == seq(last + 1 - first, k requires 0 <= k < last + 1 - first => (u.regs[first + k], init));
    }
    return Success(RegisterMapping(offset, regs));
  }

  // ---------------------------------------------------------------------------
  // free_until_pos

  type Mapping = RegisterMapping<InstPoint>

  /** The interval holds a register of class `rc` (`get_class` does not
      panic on it). */
  predicate HoldsClassReg(k: LiveIntervalKind, rc: RegClass)
  {
    AllocatedRegister(k).Some? && GetClass(AllocatedRegister(k).value) == Success(rc)
  }

  /** One step of the loop over `active`. */
  function BlockOne(k: LiveIntervalKind, rc: RegClass, m: Mapping): Result<Mapping>
  {
    match AllocatedRegister(k)
    case None => Success(m)
    case Some(reg) =>
      var c :- GetClass(reg);
      if c != rc then Success(m)
      else
        var s :- Index(m, reg);
        Success(m.(regs := m.regs[s := (m.regs[s].0, MinPoint())]))
  }

  /** The loop over `active`: every register a same-class active interval
      holds becomes busy from the first point on. */
  function BlockActive(ints: seq<LiveInterval>, ids: seq<nat>, rc: RegClass, m: Mapping): Result<Mapping>
    requires IdsIn(ids, |ints|)
    decreases |ids|
  {
    if ids == [] then Success(m)
    else
      var m' :- BlockOne(ints[ids[0]].kind, rc, m);
      BlockActive(ints, ids[1..], rc, m')
  }

  /** One step of the loop over `inactive`. */
  function LowerOne(fenv: FragEnv, k: LiveIntervalKind, cur: seq<nat>, rc: RegClass, m: Mapping): Result<Mapping>
    requires IxsIn(fenv, k.frags) && IxsIn(fenv, cur)
  {
    match AllocatedRegister(k)
    case None => Success(m)
    case Some(reg) =>
      var c :- GetClass(reg);
      if c != rc then Success(m)
      else
        match Intersection(fenv, k.frags, cur)
        case None => Success(m)
        case Some(p) =>
          var s :- Index(m, reg);
          if Lt(p, m.regs[s].1) then Success(m.(regs := m.regs[s := (m.regs[s].0, p)]))
          else Success(m)
  }

  /** The loop over `inactive`: a same-class inactive interval lowers its
      register's entry to the point where it meets the current interval. */
  function LowerInactive(fenv: FragEnv, ints: seq<LiveInterval>, ids: seq<nat>, cur: seq<nat>, rc: RegClass, m: Mapping): Result<Mapping>
    requires IntervalsOk(fenv, ints) && IdsIn(ids, |ints|) && IxsIn(fenv, cur)
    decreases |ids|
  {
    if ids == [] then Success(m)
    else
      var m' :- LowerOne(fenv, ints[ids[0]].kind, cur, rc, m);
      LowerInactive(fenv, ints, ids[1..], cur, rc, m')
  }

  /** Two mappings over the same registers. */
  predicate SameRegs(m: Mapping, m': Mapping)
  {
    m'.offset == m.offset && |m'.regs| == |m.regs| &&
    forall k :: 0 <= k < |m.regs| ==> m'.regs[k].0 == m.regs[k].0
  }

  /** `index` only depends on the offset and the length. */
  lemma IndexSameRegs(m: Mapping, m': Mapping, r: Reg)
    requires SameRegs(m, m')
    ensures Index(m', r) == Index(m, r)
  {
  }

  /** The loop over `active` only sets entries to the first point, and sets
      the entry of every register a same-class active interval holds. */
  lemma {:induction false} BlockActiveMeaning(ints: seq<LiveInterval>, ids: seq<nat>, rc: RegClass, m: Mapping)
    requires IdsIn(ids, |ints|)
    requires BlockActive(ints, ids, rc, m).Success?
    ensures var m' := BlockActive(ints, ids, rc, m).value;
      SameRegs(m, m') &&
      (forall k :: 0 <= k < |m.regs| ==> m'.regs[k].1 == m.regs[k].1 || m'.regs[k].1 == MinPoint()) &&
      (forall j :: 0 <= j < |ids| && HoldsClassReg(ints[ids[j]].kind, rc) ==>
        var reg := AllocatedRegister(ints[ids[j]].kind).value;
        Index(m', reg).Success? && m'.regs[Index(m', reg).value].1 == MinPoint())
    decreases |ids|
  {
    if ids != [] {
      var m1 := BlockOne(ints[ids[0]].kind, rc, m).value;
      BlockActiveMeaning(ints, ids[1..], rc, m1);
      var m' := BlockActive(ints, ids, rc, m).value;
      forall j | 0 <= j < |ids| && HoldsClassReg(ints[ids[j]].kind, rc)
        ensures var reg := AllocatedRegister(ints[ids[j]].kind).value;
          Index(m', reg).Success? && m'.regs[Index(m', reg).value].1 == MinPoint()
      {
        var reg := AllocatedRegister(ints[ids[j]].kind).value;
        if j == 0 {
          IndexSameRegs(m1, m', reg);
        } else {
          assert ids[1..][j - 1] == ids[j];
        }
      }
    }
  }

  /** The loop over `inactive` never raises an entry, and leaves the entry
      of every same-class inactive interval's register no later than the
      point where it meets the current interval. */
  lemma {:induction false} LowerInactiveMeaning(fenv: FragEnv, ints: seq<LiveInterval>, ids: seq<nat>, cur: seq<nat>, rc: RegClass, m: Mapping)
    requires IntervalsOk(fenv, ints) && IdsIn(ids, |ints|) && IxsIn(fenv, cur)
    requires LowerInactive(fenv, ints, ids, cur, rc, m).Success?
    ensures var m' := LowerInactive(fenv, ints, ids, cur, rc, m).value;
      SameRegs(m, m') &&
      (forall k :: 0 <= k < |m.regs| ==> Le(m'.regs[k].1, m.regs[k].1)) &&
      (forall j ::
        0 <= j < |ids| && HoldsClassReg(ints[ids[j]].kind, rc) &&
        Intersection(fenv, ints[ids[j]].kind.frags, cur).Some? ==>
        var reg := AllocatedRegister(ints[ids[j]].kind).value;
        Index(m', reg).Success? &&
        Le(m'.regs[Index(m', reg).value].1, Intersection(fenv, ints[ids[j]].kind.frags, cur).value))
    decreases |ids|
  {
    if ids != [] {
      var m1 := LowerOne(fenv, ints[ids[0]].kind, cur, rc, m).value;
      LowerInactiveMeaning(fenv, ints, ids[1..], cur, rc, m1);
      var m' := LowerInactive(fenv, ints, ids, cur, rc, m).value;
      forall j | 0 <= j < |ids| && HoldsClassReg(ints[ids[j]].kind, rc) &&
          Intersection(fenv, ints[ids[j]].kind.frags, cur).Some?
        ensures var reg := AllocatedRegister(ints[ids[j]].kind).value;
          Index(m', reg).Success? &&
          Le(m'.regs[Index(m', reg).value].1, Intersection(fenv, ints[ids[j]].kind.frags, cur).value)
      {
        var reg := AllocatedRegister(ints[ids[j]].kind).value;
        if j == 0 {
          IndexSameRegs(m1, m', reg);
        } else {
          assert ids[1..][j - 1] == ids[j];
        }
      }
    }
  }

  /** The loop over `active`, as `try_allocate_reg` runs it on its local
      mapping. */
  method BlockActiveLoop(ints: seq<LiveInterval>, ids: seq<nat>, rc: RegClass, m0: Mapping) returns (r: Result<Mapping>)
    requires IdsIn(ids, |ints|)
    ensures r == BlockActive(ints, ids, rc, m0)
  {
    var m := m0;
    for i := 0 to |ids|
      invariant BlockActive(ints, ids, rc, m0) == BlockActive(ints, ids[i..], rc, m)
    {
      assert ids[i..][0] == ids[i] && ids[i..][1..] == ids[i + 1..];
      var k := ints[ids[i]].kind;
      match AllocatedRegister(k) {
        case None =>
        case Some(reg) =>
          var c := GetClass(reg);
          if c.Failure? {
            return Failure(c.error);
          }
          if c.value == rc {
            var s := Index(m, reg);
            if s.Failure? {
              return Failure(s.error);
            }
            m := m.(regs := m.regs[s.value := (m.regs[s.value].0, MinPoint())]);
          }
      }
    }
    return Success(m);
  }

  /** The loop over `inactive`. */
  method LowerInactiveLoop(fenv: FragEnv, ints: seq<LiveInterval>, ids: seq<nat>, cur: seq<nat>, rc: RegClass, m0: Mapping)
    returns (r: Result<Mapping>)
    requires IntervalsOk(fenv, ints) && IdsIn(ids, |ints|) && IxsIn(fenv, cur)
    ensures r == LowerInactive(fenv, ints, ids, cur, rc, m0)
  {
    var m := m0;
    for i := 0 to |ids|
      invariant LowerInactive(fenv, ints, ids, cur, rc, m0) == LowerInactive(fenv, ints, ids[i..], cur, rc, m)
    {
      assert ids[i..][0] == ids[i] && ids[i..][1..] == ids[i + 1..];
      var k := ints[ids[i]].kind;
      match AllocatedRegister(k) {
        case None =>
        case Some(reg) =>
          var c := GetClass(reg);
          if c.Failure? {
            return Failure(c.error);
          }
          if c.value == rc {
            var meet := IntersectsWith(fenv, k.frags, cur);
            if meet.Some? {
              var s := Index(m, reg);
              if s.Failure? {
                return Failure(s.error);
              }
              if Lt(meet.value, m.regs[s.value].1) {
                m := m.(regs := m.regs[s.value := (m.regs[s.value].0, meet.value)]);
              }
            }
          }
      }
    }
    return Success(m);
  }

  // ---------------------------------------------------------------------------
  // Register choice

  /** The loop that finds the register with the furthest next use: the
      first entry strictly later than every earlier one and than the first
      point. */
  function Pick(regs: seq<(Reg, InstPoint)>): (b: Option<nat>)
    ensures b.Some? ==> b.value < |regs|
    decreases |regs|
  {
    if regs == [] then None
    else
      var prev := Pick(regs[..|regs| - 1]);
      var bestPos := if prev.Some? then regs[prev.value].1 else MinPoint();
      if Lt(bestPos, regs[|regs| - 1].1) then Some(|regs| - 1) else prev
  }

  /** A virtual interval takes a register whose entry is strictly greatest,
      the first such one when several tie, and none when every entry is the
      first point. */
  lemma {:induction false} PickFirstGreatest(regs: seq<(Reg, InstPoint)>)
    ensures Pick(regs).None? <==> forall k :: 0 <= k < |regs| ==> regs[k].1 == MinPoint()
    ensures Pick(regs).Some? ==>
      var b := Pick(regs).value;
      Lt(MinPoint(), regs[b].1) &&
      (forall k :: 0 <= k < |regs| ==> Le(regs[k].1, regs[b].1)) &&
      (forall k :: 0 <= k < b ==> Lt(regs[k].1, regs[b].1))
    decreases |regs|
  {
    if regs != [] {
      var n := |regs| - 1;
      var init := regs[..n];
      PickFirstGreatest(init);
      var prev := Pick(init);
      assert forall k :: 0 <= k < n ==> init[k] == regs[k];
      MinMaxBound(regs[n].1);
      if prev.Some? {
        MinMaxBound(regs[prev.value].1);
      }
    }
  }

  /** The choice loop of `try_allocate_reg`. */
  method PickLoop(regs: seq<(Reg, InstPoint)>) returns (b: Option<nat>)
    ensures b == Pick(regs)
  {
    b := None;
    var bestPos := MinPoint();
    for i := 0 to |regs|
      invariant b == Pick(regs[..i])
      invariant b.Some? ==> b.value < i
      invariant bestPos == if b.Some? then regs[b.value].1 else MinPoint()
    {
      assert regs[..i + 1][..i] == regs[..i];
      if Lt(bestPos, regs[i].1) {
        bestPos := regs[i].1;
        b := Some(i);
      }
    }
    assert regs[..|regs|] == regs;
  }

  /** `free_until_pos` after both loops. */
  function FreeUntil(fenv: FragEnv, ints: seq<LiveInterval>, active: seq<nat>, inactive: seq<nat>, id: nat, u: RealRegUniverse): Result<Mapping>
    requires IntervalsOk(fenv, ints) && IdsIn(active, |ints|) && IdsIn(inactive, |ints|)
    requires id < |ints| && WellShaped(u)
  {
    var k := ints[id].kind;
    var rc :- RegClassOf(k);
    var m0 :- DefaultMapping(rc, u, MaxPoint());
    var m1 :- BlockActive(ints, active, rc, m0);
    LowerInactive(fenv, ints, inactive, k.frags, rc, m1)
  }

  /** `solution`: the register and its free-until point, or nothing. */
  function Solution(fenv: FragEnv, ints: seq<LiveInterval>, active: seq<nat>, inactive: seq<nat>, id: nat, u: RealRegUniverse)
    : Result<Option<(Reg, InstPoint)>>
    requires IntervalsOk(fenv, ints) && IdsIn(active, |ints|) && IdsIn(inactive, |ints|)
    requires id < |ints| && WellShaped(u)
  {
    var k := ints[id].kind;
    var m :- FreeUntil(fenv, ints, active, inactive, id, u);
    if k.Fixed? then
      var s :- Index(m, k.rreg);
      if Lt(StartPoint(fenv, k), m.regs[s].1) then Success(Some((k.rreg, m.regs[s].1))) else Success(None)
    else
      match Pick(m.regs)
      case None => Success(None)
      case Some(b) => Success(Some(m.regs[b]))
  }

  /** The register choice, stated against the free-until mapping: a fixed
      interval gets its own register exactly when it starts before that
      register's entry; a virtual one gets the first strictly greatest
      entry. */
  lemma SolutionMeaning(fenv: FragEnv, ints: seq<LiveInterval>, active: seq<nat>, inactive: seq<nat>, id: nat, u: RealRegUniverse)
    requires IntervalsOk(fenv, ints) && IdsIn(active, |ints|) && IdsIn(inactive, |ints|)
    requires id < |ints| && WellShaped(u)
    requires Solution(fenv, ints, active, inactive, id, u).Success?
    ensures FreeUntil(fenv, ints, active, inactive, id, u).Success?
    ensures var m := FreeUntil(fenv, ints, active, inactive, id, u).value;
      var sol := Solution(fenv, ints, active, inactive, id, u).value;
      var k := ints[id].kind;
      (k.Fixed? ==>
        Index(m, k.rreg).Success? &&
        (sol.Some? <==> Lt(StartPoint(fenv, k), m.regs[Index(m, k.rreg).value].1)) &&
        (sol.Some? ==> sol.value == (k.rreg, m.regs[Index(m, k.rreg).value].1))) &&
      (k.Virtual? ==>
        (sol.None? <==> forall j :: 0 <= j < |m.regs| ==> m.regs[j].1 == MinPoint()) &&
        (sol.Some? ==>
          exists b ::
            0 <= b < |m.regs| && sol.value == m.regs[b] &&
            Lt(MinPoint(), m.regs[b].1) &&
            (forall j :: 0 <= j < |m.regs| ==> Le(m.regs[j].1, m.regs[b].1)) &&
            (forall j :: 0 <= j < b ==> Lt(m.regs[j].1, m.regs[b].1))))
  {
    var m := FreeUntil(fenv, ints, active, inactive, id, u).value;
    PickFirstGreatest(m.regs);
  }

  /** The outcome of `try_allocate_reg` and the intervals after it:
      `false` when no register is free, a panic where it would split the
      interval (`split_at` is not implemented) or where the debug assertion
      of `set_reg` fails, and otherwise `true` with a virtual interval's
      register recorded. */
  function Allocate(fenv: FragEnv, ints: seq<LiveInterval>, active: seq<nat>, inactive: seq<nat>, id: nat, u: RealRegUniverse)
    : Result<(bool, seq<LiveInterval>)>
    requires IntervalsOk(fenv, ints) && IdsIn(active, |ints|) && IdsIn(inactive, |ints|)
    requires id < |ints| && WellShaped(u)
  {
    var k := ints[id].kind;
    var sol :- Solution(fenv, ints, active, inactive, id, u);
    match sol
    case None => Success((false, ints))
    case Some((reg, pos)) =>
      if !Lt(EndPoint(fenv, k), pos) then Failure("not implemented: split_at")
      else if k.Fixed? then Success((true, ints))
      else if k.chosen.Some? then Failure("assertion failed: self.allocated_register().is_none()")
      else Success((true, ints[id := LiveInterval(id, k.(chosen := Some(reg)))]))
  }

  /** `try_allocate_reg` changes only the current interval, keeps its
      fragments, and reports `true` exactly when the interval then holds a
      register, which is free until after the interval ends. */
  lemma AllocateMeaning(fenv: FragEnv, ints: seq<LiveInterval>, active: seq<nat>, inactive: seq<nat>, id: nat, u: RealRegUniverse)
    requires IntervalsOk(fenv, ints) && IdsIn(active, |ints|) && IdsIn(inactive, |ints|)
    requires id < |ints| && WellShaped(u)
    requires Allocate(fenv, ints, active, inactive, id, u).Success?
    ensures var (ok, ints') := Allocate(fenv, ints, active, inactive, id, u).value;
      |ints'| == |ints| && IntervalsOk(fenv, ints') &&
      (forall j :: 0 <= j < |ints| && j != id ==> ints'[j] == ints[j]) &&
      ints'[id].kind.frags == ints[id].kind.frags &&
      ints'[id].kind.Fixed? == ints[id].kind.Fixed? &&
      (!ok ==> ints' == ints) &&
      (ok ==>
        Solution(fenv, ints, active, inactive, id, u).value.Some? &&
        var (reg, pos) := Solution(fenv, ints, active, inactive, id, u).value.value;
        AllocatedRegister(ints'[id].kind) == Some(reg) && Lt(EndPoint(fenv, ints[id].kind), pos))
  {
  }

  // ---------------------------------------------------------------------------
  // Intervals::new

  /** The live ranges the analysis hands over: a real register's, and a
      virtual register's with no register allocated yet. */
  datatype RealRange = RealRange(rreg: Reg, sortedFrags: seq<nat>)

  datatype VirtualRange = VirtualRange(vreg: Reg, rreg: Option<Reg>, sortedFrags: seq<nat>)

  predicate AllOk(fenv: FragEnv, ks: seq<LiveIntervalKind>)
  {
    forall i :: 0 <= i < |ks| ==> IntervalOk(fenv, ks[i])
  }

  function StartKey(fenv: FragEnv, k: LiveIntervalKind): int
    requires IntervalOk(fenv, k)
  {
    Pos(StartPoint(fenv, k))
  }

  /** Ordered by start point. */
  predicate StartOrdered(fenv: FragEnv, ks: seq<LiveIntervalKind>)
    requires AllOk(fenv, ks)
  {
    forall i, j :: 0 <= i < j < |ks| ==> StartKey(fenv, ks[i]) <= StartKey(fenv, ks[j])
  }

  /** Inserts `k` after every element whose start is not later: the step of
      a stable sort by start point. */
  function InsertByStart(fenv: FragEnv, k: LiveIntervalKind, s: seq<LiveIntervalKind>): (r: seq<LiveIntervalKind>)
    requires IntervalOk(fenv, k) && AllOk(fenv, s)
    ensures AllOk(fenv, r)
    ensures multiset(r) == multiset(s) + multiset{k}
    decreases |s|
  {
    if s == [] then [k]
    else
      var n := |s| - 1;
      if StartKey(fenv, s[n]) <= StartKey(fenv, k) then s + [k]
      else
        assert s == s[..n] + [s[n]];
        InsertByStart(fenv, k, s[..n]) + [s[n]]
  }

  /** `sort_by_key` on the start point. */
  function SortByStart(fenv: FragEnv, ks: seq<LiveIntervalKind>): (r: seq<LiveIntervalKind>)
    requires AllOk(fenv, ks)
    ensures AllOk(fenv, r)
    decreases |ks|
  {
    if ks == [] then []
    else InsertByStart(fenv, ks[|ks| - 1], SortByStart(fenv, ks[..|ks| - 1]))
  }

  predicate AllAtMost(fenv: FragEnv, s: seq<LiveIntervalKind>, bound: int)
    requires AllOk(fenv, s)
  {
    forall i :: 0 <= i < |s| ==> StartKey(fenv, s[i]) <= bound
  }

  lemma {:induction false} InsertKeepsBound(fenv: FragEnv, k: LiveIntervalKind, s: seq<LiveIntervalKind>, bound: int)
    requires IntervalOk(fenv, k) && AllOk(fenv, s)
    requires AllAtMost(fenv, s, bound) && StartKey(fenv, k) <= bound
    ensures AllAtMost(fenv, InsertByStart(fenv, k, s), bound)
    decreases |s|
  {
    if s != [] {
      var n := |s| - 1;
      if StartKey(fenv, s[n]) > StartKey(fenv, k) {
        InsertKeepsBound(fenv, k, s[..n], bound);
      }
    }
  }

  /** An ordered sequence followed by an element no earlier than any of
      it is ordered. */
  lemma OrderedSnoc(fenv: FragEnv, t: seq<LiveIntervalKind>, x: LiveIntervalKind)
    requires AllOk(fenv, t) && IntervalOk(fenv, x)
    requires StartOrdered(fenv, t) && AllAtMost(fenv, t, StartKey(fenv, x))
    ensures AllOk(fenv, t + [x]) && StartOrdered(fenv, t + [x])
  {
    var r := t + [x];
    forall i, j | 0 <= i < j < |r| ensures StartKey(fenv, r[i]) <= StartKey(fenv, r[j]) {
      if j < |t| {
        assert r[i] == t[i] && r[j] == t[j];
      } else {
        assert r[i] == t[i] && r[j] == x;
      }
    }
  }

  lemma {:induction false} InsertByStartOrdered(fenv: FragEnv, k: LiveIntervalKind, s: seq<LiveIntervalKind>)
    requires IntervalOk(fenv, k) && AllOk(fenv, s) && StartOrdered(fenv, s)
    ensures StartOrdered(fenv, InsertByStart(fenv, k, s))
    decreases |s|
  {
    if s == [] {
    } else {
      var n := |s| - 1;
      if StartKey(fenv, s[n]) <= StartKey(fenv, k) {
        assert AllAtMost(fenv, s, StartKey(fenv, k));
        OrderedSnoc(fenv, s, k);
      } else {
        var init := s[..n];
        assert StartOrdered(fenv, init) && AllAtMost(fenv, init, StartKey(fenv, s[n]));
        InsertByStartOrdered(fenv, k, init);
        InsertKeepsBound(fenv, k, init, StartKey(fenv, s[n]));
        OrderedSnoc(fenv, InsertByStart(fenv, k, init), s[n]);
      }
    }
  }

  /** `Intervals::new` orders the intervals by start point and loses or
      duplicates none. */
  lemma SortByStartMeaning(fenv: FragEnv, ks: seq<LiveIntervalKind>)
    requires AllOk(fenv, ks)
    ensures StartOrdered(fenv, SortByStart(fenv, ks))
    ensures multiset(SortByStart(fenv, ks)) == multiset(ks)
  {
    SortByStartOrdered(fenv, ks);
    SortByStartPerm(fenv, ks);
  }

  lemma {:induction false} SortByStartOrdered(fenv: FragEnv, ks: seq<LiveIntervalKind>)
    requires AllOk(fenv, ks)
    ensures StartOrdered(fenv, SortByStart(fenv, ks))
    decreases |ks|
  {
    if ks != [] {
      var n := |ks| - 1;
      SortByStartOrdered(fenv, ks[..n]);
      InsertByStartOrdered(fenv, ks[n], SortByStart(fenv, ks[..n]));
    }
  }

  lemma {:induction false} SortByStartPerm(fenv: FragEnv, ks: seq<LiveIntervalKind>)
    requires AllOk(fenv, ks)
    ensures multiset(SortByStart(fenv, ks)) == multiset(ks)
    decreases |ks|
  {
    if ks != [] {
      var n := |ks| - 1;
      SortByStartPerm(fenv, ks[..n]);
      LastMultiset(ks);
    }
  }

  /** The kinds in the order `Intervals::new` pushes them: the real
      ranges, then the virtual ones. */
  function Kinds(rlrs: seq<RealRange>, vlrs: seq<VirtualRange>): (ks: seq<LiveIntervalKind>)
    ensures |ks| == |rlrs| + |vlrs|
  {
    seq(|rlrs|, i requires 0 <= i < |rlrs| => Fixed(rlrs[i].rreg, rlrs[i].sortedFrags)) +
    seq(|vlrs|, i requires 0 <= i < |vlrs| => Virtual(vlrs[i].vreg, vlrs[i].rreg, vlrs[i].sortedFrags))
  }

  /** `Intervals::new`: sorted by start, then numbered by position. */
  function NewIntervals(fenv: FragEnv, rlrs: seq<RealRange>, vlrs: seq<VirtualRange>): (ints: seq<LiveInterval>)
    requires AllOk(fenv, Kinds(rlrs, vlrs))
    ensures IntervalsOk(fenv, ints)
    ensures |ints| == |rlrs| + |vlrs|
  {
    var sorted := SortByStart(fenv, Kinds(rlrs, vlrs));
    SortByStartMeaning(fenv, Kinds(rlrs, vlrs));
    assert |sorted| == |Kinds(rlrs, vlrs)| by {
      assert |multiset(sorted)| == |multiset(Kinds(rlrs, vlrs))|;
    }
    seq(|sorted|, i requires 0 <= i < |sorted| => LiveInterval(i, sorted[i]))
  }

  /** Interval ids follow start points, and every real and virtual range
      becomes exactly one interval. */
  lemma NewIntervalsMeaning(fenv: FragEnv, rlrs: seq<RealRange>, vlrs: seq<VirtualRange>)
    requires AllOk(fenv, Kinds(rlrs, vlrs))
    ensures var ints := NewIntervals(fenv, rlrs, vlrs);
      (forall i, j :: 0 <= i < j < |ints| ==>
        StartKey(fenv, ints[i].kind) <= StartKey(fenv, ints[j].kind)) &&
      multiset(seq(|ints|, i requires 0 <= i < |ints| => ints[i].kind)) == multiset(Kinds(rlrs, vlrs))
  {
    var ks := Kinds(rlrs, vlrs);
    var sorted := SortByStart(fenv, ks);
    var ints := NewIntervals(fenv, rlrs, vlrs);
    NewIntervalsKinds(fenv, rlrs, vlrs);
    SortByStartMeaning(fenv, ks);
    assert seq(|ints|, i requires 0 <= i < |ints| => ints[i].kind) == sorted;
  }

  /** The intervals `Intervals::new` builds carry the sorted kinds, in order. */
  lemma NewIntervalsKinds(fenv: FragEnv, rlrs: seq<RealRange>, vlrs: seq<VirtualRange>)
    requires AllOk(fenv, Kinds(rlrs, vlrs))
    ensures var ints := NewIntervals(fenv, rlrs, vlrs);
      var sorted := SortByStart(fenv, Kinds(rlrs, vlrs));
      |ints| == |sorted| && forall i :: 0 <= i < |ints| ==> ints[i].kind == sorted[i]
  {
    SortByStartMeaning(fenv, Kinds(rlrs, vlrs));
  }

  /** The ids from `n - 1` down to `k`: what `unhandled` holds once the
      intervals below `k` have been taken. */
  function Down(n: nat, k: nat): (s: seq<nat>)
    requires k <= n
    ensures |s| == n - k
    ensures forall j :: 0 <= j < |s| ==> s[j] == n - 1 - j
  {
    seq(n - k, j requires 0 <= j < n - k => n - 1 - j)
  }

  function Upto(k: nat): (s: seq<nat>)
    ensures |s| == k
    ensures forall j :: 0 <= j < k ==> s[j] == j
  {
    seq(k, j requires 0 <= j < k => j)
  }

  /** One loop of `update_state`: the ids of `ids` that end before
      `start`, that cover it, and the others, each in order. */
  method Partition(fenv: FragEnv, ints: seq<LiveInterval>, ids: seq<nat>, start: InstPoint)
    returns (toHandled: seq<nat>, toActive: seq<nat>, toInactive: seq<nat>)
    requires IntervalsOk(fenv, ints) && IdsIn(ids, |ints|)
    ensures toHandled == Filter(fenv, ints, ids, start, ToHandled)
    ensures toActive == Filter(fenv, ints, ids, start, ToActive)
    ensures toInactive == Filter(fenv, ints, ids, start, ToInactive)
  {
    toHandled, toActive, toInactive := [], [], [];
    for i := 0 to |ids|
      invariant toHandled == Filter(fenv, ints, ids[..i], start, ToHandled)
      invariant toActive == Filter(fenv, ints, ids[..i], start, ToActive)
      invariant toInactive == Filter(fenv, ints, ids[..i], start, ToInactive)
    {
      var id := ids[i];
      FilterSnoc(fenv, ints, ids, i, start, ToHandled);
      FilterSnoc(fenv, ints, ids, i, start, ToActive);
      FilterSnoc(fenv, ints, ids, i, start, ToInactive);
      if Lt(EndPoint(fenv, ints[id].kind), start) {
        toHandled := toHandled + [id];
      } else if Covers(fenv, ints[id].kind.frags, start) {
        toActive := toActive + [id];
      } else {
        toInactive := toInactive + [id];
      }
    }
    assert ids[..|ids|] == ids;
  }

  /** Making one more id active adds it to the ids held. */
  lemma PushKeepsIds(act: seq<nat>, inact: seq<nat>, hand: seq<nat>, ids: multiset<nat>, id: nat)
    requires multiset(act + inact + hand) == ids
    ensures multiset((act + [id]) + inact + hand) == ids + multiset{id}
  {
  }

  // ---------------------------------------------------------------------------
  // State

  class State {
    var intervals: seq<LiveInterval>
    /** Intervals starting after the current one, the next one last. */
    var unhandled: seq<nat>
    /** Intervals covering the current start. */
    var active: seq<nat>
    /** Intervals not covering the current start that end after it. */
    var inactive: seq<nat>
    /** Intervals that ended. */
    var handled: seq<nat>

    ghost predicate Valid(fenv: FragEnv)
      reads this
    {
      IntervalsOk(fenv, intervals) &&
      IdsIn(unhandled, |intervals|) && IdsIn(active, |intervals|) &&
      IdsIn(inactive, |intervals|) && IdsIn(handled, |intervals|)
    }

    /** `State::new`: `unhandled` holds the ids in reverse, so that popping
        yields them in start order. */
    constructor New(fenv: FragEnv, ints: seq<LiveInterval>)
      requires IntervalsOk(fenv, ints)
      ensures Valid(fenv)
      ensures intervals == ints && unhandled == Down(|ints|, 0)
      ensures active == [] && inactive == [] && handled == []
    {
      intervals := ints;
      unhandled := seq(|ints|, j requires 0 <= j < |ints| => ints[|ints| - 1 - j].id);
      active, inactive, handled := [], [], [];
    }

    /** `next_unhandled`: pops the last id. */
    method NextUnhandled() returns (id: Option<nat>)
      modifies this
      ensures old(unhandled) == [] ==> id == None && unhandled == []
      ensures old(unhandled) != [] ==>
        id == Some(old(unhandled)[|old(unhandled)| - 1]) && unhandled == old(unhandled)[..|old(unhandled)| - 1]
      ensures intervals == old(intervals) && active == old(active)
      ensures inactive == old(inactive) && handled == old(handled)
    {
      if unhandled == [] {
        return None;
      }
      id := Some(unhandled[|unhandled| - 1]);
      unhandled := unhandled[..|unhandled| - 1];
    }

    /** `update_state`: each active or inactive interval goes to the place
        its classification at the current start names, in order. */
    method UpdateState(cur: nat, fenv: FragEnv)
      requires Valid(fenv) && cur < |intervals|
      modifies this
      ensures Valid(fenv)
      ensures intervals == old(intervals) && unhandled == old(unhandled)
      ensures var start := StartPoint(fenv, intervals[cur].kind);
        active == Filter(fenv, intervals, old(active), start, ToActive) +
                  Filter(fenv, intervals, old(inactive), start, ToActive) &&
        inactive == Filter(fenv, intervals, old(active), start, ToInactive) +
                    Filter(fenv, intervals, old(inactive), start, ToInactive) &&
        handled == old(handled) + Filter(fenv, intervals, old(active), start, ToHandled) +
                   Filter(fenv, intervals, old(inactive), start, ToHandled)
    {
      var start := StartPoint(fenv, intervals[cur].kind);
      var h1, a1, i1 := Partition(fenv, intervals, active, start);
      var h2, a2, i2 := Partition(fenv, intervals, inactive, start);
      handled := handled + h1 + h2;
      active := a1 + a2;
      inactive := i1 + i2;
    }

    /** `try_allocate_reg`: computes the free-until mapping on a local value,
        chooses a register, and records it on a virtual interval. */
    method TryAllocateReg(id: nat, fenv: FragEnv, u: RealRegUniverse) returns (r: Result<bool>)
      requires Valid(fenv) && id < |intervals| && WellShaped(u)
      modifies this
      ensures unhandled == old(unhandled) && active == old(active)
      ensures inactive == old(inactive) && handled == old(handled)
      ensures var a := Allocate(fenv, old(intervals), active, inactive, id, u);
        (r.Success? <==> a.Success?) &&
        (r.Success? ==> r.value == a.value.0 && intervals == a.value.1) &&
        (r.Failure? ==> intervals == old(intervals))
    {
      var k := intervals[id].kind;
      var rc := RegClassOf(k);
      if rc.Failure? {
        return Failure(rc.error);
      }
      var m0 := WithDefault(rc.value, u, MaxPoint());
      if m0.Failure? {
        return Failure(m0.error);
      }
      var m1 := BlockActiveLoop(intervals, active, rc.value, m0.value);
      if m1.Failure? {
        return Failure(m1.error);
      }
      var m := LowerInactiveLoop(fenv, intervals, inactive, k.frags, rc.value, m1.value);
      if m.Failure? {
        return Failure(m.error);
      }
      var solution: Option<(Reg, InstPoint)>;
      if k.Fixed? {
        var s := Index(m.value, k.rreg);
        if s.Failure? {
          return Failure(s.error);
        }
        var pos := m.value.regs[s.value].1;
        solution := if Lt(StartPoint(fenv, k), pos) then Some((k.rreg, pos)) else None;
      } else {
        var b := PickLoop(m.value.regs);
        solution := if b.Some? then Some(m.value.regs[b.value]) else None;
      }
      if solution.None? {
        return Success(false);
      }
      var (bestReg, bestPos) := solution.value;
      if !Lt(EndPoint(fenv, k), bestPos) {
        return Failure("not implemented: split_at");
      }
      if k.Virtual? {
        if k.chosen.Some? {
          return Failure("assertion failed: self.allocated_register().is_none()");
        }
        intervals := intervals[id := LiveInterval(id, k.(chosen := Some(bestReg)))];
      }
      return Success(true);
    }

    /** `try_allocate_reg`, falling back on the unimplemented
        `allocate_blocked_reg` when no register is free: on success only the
        current interval changes, and it then holds a register. */
    method AllocateOrBlock(id: nat, fenv: FragEnv, u: RealRegUniverse) returns (r: Result<bool>)
      requires Valid(fenv) && id < |intervals| && WellShaped(u)
      modifies this
      ensures unhandled == old(unhandled) && active == old(active)
      ensures inactive == old(inactive) && handled == old(handled)
      ensures Valid(fenv) && |intervals| == |old(intervals)|
      ensures forall j :: 0 <= j < |intervals| ==> intervals[j].kind.frags == old(intervals)[j].kind.frags
      ensures r.Success? ==>
        (forall j :: 0 <= j < |intervals| && j != id ==> intervals[j] == old(intervals)[j]) &&
        AllocatedRegister(intervals[id].kind).Some?
    {
      ghost var before := intervals;
      var ok := TryAllocateReg(id, fenv, u);
      if ok.Failure? {
        return Failure(ok.error);
      }
      AllocateMeaning(fenv, before, active, inactive, id, u);
      if !ok.value {
        return Failure("not implemented: allocate_blocked_reg");
      }
      return Success(true);
    }

    /** One turn of the main loop of `run`: pops the next interval,
        updates the partition, allocates, and makes the interval active when
        it holds a register. `Success(false)` when nothing is left; a panic
        of `try_allocate_reg` or of the unimplemented `allocate_blocked_reg`
        is a failure. */
    method Step(fenv: FragEnv, u: RealRegUniverse) returns (r: Result<bool>)
      requires Valid(fenv) && WellShaped(u)
      modifies this
      ensures Valid(fenv) && |intervals| == |old(intervals)|
      ensures forall j :: 0 <= j < |intervals| ==> intervals[j].kind.frags == old(intervals)[j].kind.frags
      ensures old(unhandled) == [] ==>
        r == Success(false) && unhandled == [] && intervals == old(intervals) &&
        active == old(active) && inactive == old(inactive) && handled == old(handled)
      ensures r.Success? && old(unhandled) != [] ==>
        var id := old(unhandled)[|old(unhandled)| - 1];
        r.value && unhandled == old(unhandled)[..|old(unhandled)| - 1] &&
        AllocatedRegister(intervals[id].kind).Some? &&
        (forall j :: 0 <= j < |intervals| && j != id ==> intervals[j] == old(intervals)[j]) &&
        multiset(active + inactive + handled) == old(multiset(active + inactive + handled)) + multiset{id}
    {
      var next := NextUnhandled();
      if next.None? {
        return Success(false);
      }
      r := Activate(next.value, fenv, u);
    }

    /** Makes interval `id` active. */
    method PushActive(id: nat, fenv: FragEnv)
      requires Valid(fenv) && id < |intervals|
      modifies this
      ensures Valid(fenv) && active == old(active) + [id]
      ensures intervals == old(intervals) && unhandled == old(unhandled)
      ensures inactive == old(inactive) && handled == old(handled)
      ensures multiset(active + inactive + handled) == old(multiset(active + inactive + handled)) + multiset{id}
    {
      PushKeepsIds(active, inactive, handled, multiset(active + inactive + handled), id);
      assert IdsIn(active + [id], |intervals|);
      active := active + [id];
    }

    /** The body of one turn of `run` once `id` is popped: update the
        partition at its start, allocate, and push it onto `active` when it
        holds a register. */
    method Activate(id: nat, fenv: FragEnv, u: RealRegUniverse) returns (r: Result<bool>)
      requires Valid(fenv) && id < |intervals| && WellShaped(u)
      modifies this
      ensures Valid(fenv) && |intervals| == |old(intervals)| && unhandled == old(unhandled)
      ensures forall j :: 0 <= j < |intervals| ==> intervals[j].kind.frags == old(intervals)[j].kind.frags
      ensures r.Success? ==>
        r.value && AllocatedRegister(intervals[id].kind).Some? &&
        (forall j :: 0 <= j < |intervals| && j != id ==> intervals[j] == old(intervals)[j]) &&
        multiset(active + inactive + handled) == old(multiset(active + inactive + handled)) + multiset{id}
    {
      ghost var act, inact, hand := active, inactive, handled;
      UpdateState(id, fenv);
      UpdateKeepsIds(fenv, intervals, act, inact, hand, StartPoint(fenv, intervals[id].kind),
        active, inactive, handled);
      var ok := AllocateOrBlock(id, fenv, u);
      if ok.Failure? {
        return Failure(ok.error);
      }
      // `run` pushes the interval when it holds a register, which a
      // successful allocation guarantees.
      PushActive(id, fenv);
      return Success(true);
    }

    /** The main loop of `run`: takes the intervals in start order until
        none is left. When it completes, every interval holds a register and
        sits in exactly one of active, inactive and handled. */
    method Run(fenv: FragEnv, u: RealRegUniverse) returns (r: Result<nat>)
      requires Valid(fenv) && WellShaped(u)
      requires unhandled == Down(|intervals|, 0) && active == [] && inactive == [] && handled == []
      modifies this
      ensures Valid(fenv) && |intervals| == |old(intervals)|
      ensures forall j :: 0 <= j < |intervals| ==> intervals[j].kind.frags == old(intervals)[j].kind.frags
      ensures r.Success? ==>
        r.value == |intervals| && unhandled == [] &&
        (forall j :: 0 <= j < |intervals| ==> AllocatedRegister(intervals[j].kind).Some?) &&
        multiset(active + inactive + handled) == multiset(Upto(|intervals|))
    {
      var n := |intervals|;
      ghost var ints0 := intervals;
      var taken := 0;
      assert active + inactive + handled == Upto(0);
      while true
        invariant Valid(fenv) && |intervals| == n && taken <= n
        invariant unhandled == Down(n, taken)
        invariant forall j :: 0 <= j < n ==> intervals[j].kind.frags == ints0[j].kind.frags
        invariant forall j :: 0 <= j < taken ==> AllocatedRegister(intervals[j].kind).Some?
        invariant multiset(active + inactive + handled) == multiset(Upto(taken))
        decreases |unhandled|
      {
        var more := Step(fenv, u);
        if more.Failure? {
          return Failure(more.error);
        }
        if !more.value {
          assert |Down(n, taken)| == 0;
          break;
        }
        assert unhandled == Down(n, taken + 1);
        assert Upto(taken + 1) == Upto(taken) + [taken];
        taken := taken + 1;
      }
      return Success(taken);
    }
  }
}
