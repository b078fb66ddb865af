/** Instruction points, live-range fragments and sorted fragment lists of
    the register allocator (`data_structures.rs`). */
module RegallocFrags {
  import opened Wrappers
  import opened RegallocRegs

  // ---------------------------------------------------------------------------
  // Points within an instruction: Reload < Use < Def < Spill

  datatype Point = Reload | Use | Def | Spill

  /** The `convert` helper of `Point::partial_cmp`. */
  function Convert(pt: Point): (n: nat)
    ensures n < 4
  {
    match pt
    case Reload => 0
    case Use => 1
    case Def => 2
    case Spill => 3
  }

  datatype InstPoint = InstPoint(iix: u32, pt: Point)

  /** A linear position for every instruction point: four per instruction. */
  function Pos(p: InstPoint): int
  {
    4 * p.iix + Convert(p.pt)
  }

  /** `InstPoint::partial_cmp`: by instruction first, then by point. It is
      the order of the linear positions, and equal only on equal points. */
  function CmpPoints(a: InstPoint, b: InstPoint): (o: Ordering)
    ensures o == Less <==> Pos(a) < Pos(b)
    ensures o == Greater <==> Pos(a) > Pos(b)
    ensures o == Equal <==> a == b
  {
    if a.iix < b.iix then Less
    else if a.iix > b.iix then Greater
    else if Convert(a.pt) < Convert(b.pt) then Less
    else if Convert(a.pt) > Convert(b.pt) then Greater
    else Equal
  }

  predicate Lt(a: InstPoint, b: InstPoint) { CmpPoints(a, b) == Less }

  predicate Le(a: InstPoint, b: InstPoint) { CmpPoints(a, b) != Greater }

  function MinPoint(): InstPoint { InstPoint(0, Reload) }

  function MaxPoint(): InstPoint { InstPoint(U32_LIMIT - 1, Spill) }

  /** `InstPoint::min_value` and `max_value` bound every point. */
  lemma MinMaxBound(p: InstPoint)
    ensures Le(MinPoint(), p) && Le(p, MaxPoint())
    ensures p != MinPoint() ==> Lt(MinPoint(), p)
  {
  }

  // ---------------------------------------------------------------------------
  // Fragments

  datatype RangeFragKind = Local | LiveIn | LiveOut | Thru

  datatype RangeFrag = RangeFrag(bix: u32, kind: RangeFragKind, first: InstPoint, last: InstPoint, count: nat)

  /** A fragment as `RangeFrag::new` may build it: `first <= last`. */
  predicate WellFormed(f: RangeFrag) { Le(f.first, f.last) }

  /** `RangeFrag::new`: the kind says whether the fragment starts at the
      block's first Use point and whether it ends at its last Def point.
      Taking the first or last instruction of an empty block fails. */
  function NewRangeFrag(blockInsns: MyRange, bix: u32, first: InstPoint, last: InstPoint, count: nat): (r: Result<RangeFrag>)
    requires blockInsns.Valid()
    ensures r.Success? <==> blockInsns.len > 0
    ensures r.Success? ==> r.value.first == first && r.value.last == last && r.value.bix == bix
    ensures r.Success? ==>
      (r.value.kind in {LiveIn, Thru} <==> first == InstPoint(blockInsns.first, Use))
    ensures r.Success? ==>
      (r.value.kind in {LiveOut, Thru} <==> Pos(last) == 4 * (blockInsns.first + blockInsns.len - 1) + 2)
  {
    match (blockInsns.First(), blockInsns.Last())
    case (Success(fi), Success(li)) =>
      var startsAtBlock := first == InstPoint(fi, Use);
      var endsAtBlock := last == InstPoint(li, Def);
      var kind :=
        if !startsAtBlock && !endsAtBlock then Local
        else if !startsAtBlock && endsAtBlock then LiveOut
        else if startsAtBlock && !endsAtBlock then LiveIn
        else Thru;
      Success(RangeFrag(bix, kind, first, last, count))
    case _ => Failure("assertion failed: self.len() > 0")
  }

  /** `cmp_range_frags`: a partial order on fragments. */
  function CmpFrags(f1: RangeFrag, f2: RangeFrag): Option<Ordering>
  {
    if Lt(f1.last, f2.first) then Some(Less)
    else if Lt(f2.last, f1.first) then Some(Greater)
    else if f1.first == f2.first && f1.last == f2.last then Some(Equal)
    else None
  }

  /** `RangeFrag::contains`. */
  predicate FragContains(f: RangeFrag, p: InstPoint) { Le(f.first, p) && Le(p, f.last) }

  /** Two fragments that `add` refuses to merge: neither is wholly before
      the other. */
  predicate Overlap(f1: RangeFrag, f2: RangeFrag)
  {
    CmpFrags(f1, f2) != Some(Less) && CmpFrags(f1, f2) != Some(Greater)
  }

  /** Less and Greater are mirror images; Equal and None are symmetric. */
  lemma CmpFragsMirror(f1: RangeFrag, f2: RangeFrag)
    requires WellFormed(f1) && WellFormed(f2)
    ensures CmpFrags(f1, f2) == Some(Less) <==> CmpFrags(f2, f1) == Some(Greater)
    ensures CmpFrags(f1, f2) == Some(Equal) <==> CmpFrags(f2, f1) == Some(Equal)
    ensures CmpFrags(f1, f2) == None <==> CmpFrags(f2, f1) == None
  {
  }

  /** Two well-formed fragments overlap exactly when some instruction point
      lies in both. */
  lemma OverlapIffCommonPoint(f1: RangeFrag, f2: RangeFrag)
    requires WellFormed(f1) && WellFormed(f2)
    ensures Overlap(f1, f2) <==> exists p :: FragContains(f1, p) && FragContains(f2, p)
  {
    if Overlap(f1, f2) {
      var p := if Pos(f1.first) >= Pos(f2.first) then f1.first else f2.first;
      assert FragContains(f1, p) && FragContains(f2, p);
    }
  }

  /** Fragments strictly before one another chain. */
  lemma LessTrans(f1: RangeFrag, f2: RangeFrag, f3: RangeFrag)
    requires WellFormed(f2)
    requires CmpFrags(f1, f2) == Some(Less) && CmpFrags(f2, f3) == Some(Less)
    ensures CmpFrags(f1, f3) == Some(Less)
  {
  }

  /** The unit tests' cases: point fragments at `3u`, `3d` and `4u`, two
      partially overlapping fragments, and a fragment inside another. */
  lemma CmpFragsExamples()
    ensures var f3u := RangeFrag(0, Local, InstPoint(3, Use), InstPoint(3, Use), 1);
            var f3d := RangeFrag(0, Local, InstPoint(3, Def), InstPoint(3, Def), 1);
            CmpFrags(f3u, f3u) == Some(Equal) && CmpFrags(f3u, f3d) == Some(Less) &&
            CmpFrags(f3d, f3u) == Some(Greater)
    ensures var f3d := RangeFrag(0, Local, InstPoint(3, Def), InstPoint(3, Def), 1);
            var f4u := RangeFrag(0, Local, InstPoint(4, Use), InstPoint(4, Use), 1);
            CmpFrags(f3d, f3d) == Some(Equal) && CmpFrags(f3d, f4u) == Some(Less) &&
            CmpFrags(f4u, f3d) == Some(Greater)
    ensures var f3d5d := RangeFrag(0, Local, InstPoint(3, Def), InstPoint(5, Def), 1);
            var f3u5u := RangeFrag(0, Local, InstPoint(3, Use), InstPoint(5, Use), 1);
            CmpFrags(f3d5d, f3u5u) == None && CmpFrags(f3u5u, f3d5d) == None
    ensures var f3d5u := RangeFrag(0, Local, InstPoint(3, Def), InstPoint(5, Use), 1);
            var f3u5d := RangeFrag(0, Local, InstPoint(3, Use), InstPoint(5, Def), 1);
            CmpFrags(f3d5u, f3u5d) == None && CmpFrags(f3u5d, f3d5u) == None
  {
  }
}
