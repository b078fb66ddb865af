/** `SortedRangeFragIxs` of the register allocator (`data_structures.rs`):
    vectors of indices into a fragment environment, kept so that consecutive
    fragments are strictly ordered. */
module RegallocSorted {
  import opened Wrappers
  import opened RegallocRegs
  import opened RegallocFrags
  import opened SeqFacts

  type FragEnv = seq<RangeFrag>

  predicate IxsIn(fenv: FragEnv, ixs: seq<nat>)
  {
    forall k :: 0 <= k < |ixs| ==> ixs[k] < |fenv|
  }

  /** What `check` accepts: each fragment is strictly before the next. */
  predicate Sorted(fenv: FragEnv, ixs: seq<nat>)
    requires IxsIn(fenv, ixs)
  {
    forall k :: 0 < k < |ixs| ==> CmpFrags(fenv[ixs[k - 1]], fenv[ixs[k]]) == Some(Less)
  }

  predicate EnvWellFormed(fenv: FragEnv)
  {
    forall k :: 0 <= k < |fenv| ==> WellFormed(fenv[k])
  }

  /** Every fragment strictly before every later one. */
  predicate Increasing(fenv: FragEnv, ixs: seq<nat>)
    requires IxsIn(fenv, ixs)
  {
    forall i, j :: 0 <= i < j < |ixs| ==> CmpFrags(fenv[ixs[i]], fenv[ixs[j]]) == Some(Less)
  }

  /** Over well-formed fragments, `check`'s neighbour test orders the whole
      vector. */
  lemma {:induction false} SortedIncreasing(fenv: FragEnv, ixs: seq<nat>)
    requires IxsIn(fenv, ixs) && EnvWellFormed(fenv) && Sorted(fenv, ixs)
    ensures Increasing(fenv, ixs)
    decreases |ixs|
  {
    if |ixs| > 1 {
      var init := ixs[..|ixs| - 1];
      SortedIncreasing(fenv, init);
      forall i, j | 0 <= i < j < |ixs|
        ensures CmpFrags(fenv[ixs[i]], fenv[ixs[j]]) == Some(Less)
      {
        if j < |ixs| - 1 {
          assert ixs[i] == init[i] && ixs[j] == init[j];
        } else if i < j - 1 {
          assert ixs[i] == init[i] && ixs[j - 1] == init[j - 1];
          LessTrans(fenv[ixs[i]], fenv[ixs[j - 1]], fenv[ixs[j]]);
        }
      }
    }
  }

  function Cons(prefix: seq<nat>, rest: Option<seq<nat>>): (r: Option<seq<nat>>)
    ensures r.Some? <==> rest.Some?
  {
    if rest.Some? then Some(prefix + rest.value) else None
  }

  lemma ConsNil(r: Option<seq<nat>>)
    ensures Cons([], r) == r
  {
    if r.Some? { assert [] + r.value == r.value; }
  }

  lemma ConsCons(a: seq<nat>, b: seq<nat>, r: Option<seq<nat>>)
    ensures Cons(a, Cons(b, r)) == Cons(a + b, r)
  {
    if r.Some? { assert a + (b + r.value) == (a + b) + r.value; }
  }

  // ---------------------------------------------------------------------------
  // add / can_add

  /** The merge walk of `add`: `None` where `add` panics because the two
      vectors intersect. */
  function Merge(fenv: FragEnv, xs: seq<nat>, ys: seq<nat>): Option<seq<nat>>
    requires IxsIn(fenv, xs) && IxsIn(fenv, ys)
    decreases |xs| + |ys|
  {
    if xs == [] then Some(ys)
    else if ys == [] then Some(xs)
    else
      match CmpFrags(fenv[xs[0]], fenv[ys[0]])
      case Some(Less) => Cons([xs[0]], Merge(fenv, xs[1..], ys))
      case Some(Greater) => Cons([ys[0]], Merge(fenv, xs, ys[1..]))
      case _ => None
  }

  /** The merged vector starts with the head of one of its inputs. */
  lemma {:induction false} MergeHead(fenv: FragEnv, xs: seq<nat>, ys: seq<nat>)
    requires IxsIn(fenv, xs) && IxsIn(fenv, ys)
    requires Merge(fenv, xs, ys).Some?
    ensures var m := Merge(fenv, xs, ys).value;
      |m| == |xs| + |ys| &&
      (m != [] ==> (xs != [] && m[0] == xs[0]) || (ys != [] && m[0] == ys[0]))
    decreases |xs| + |ys|
  {
    if xs != [] && ys != [] {
      match CmpFrags(fenv[xs[0]], fenv[ys[0]])
      case Some(Less) => MergeHead(fenv, xs[1..], ys);
      case Some(Greater) => MergeHead(fenv, xs, ys[1..]);
    }
  }

  lemma SortedCons(fenv: FragEnv, a: nat, rest: seq<nat>)
    requires IxsIn(fenv, rest) && a < |fenv| && Sorted(fenv, rest)
    requires rest != [] ==> CmpFrags(fenv[a], fenv[rest[0]]) == Some(Less)
    ensures IxsIn(fenv, [a] + rest) && Sorted(fenv, [a] + rest)
  {
    var s := [a] + rest;
    forall k | 0 < k < |s| ensures CmpFrags(fenv[s[k - 1]], fenv[s[k]]) == Some(Less) {
      if k > 1 { assert s[k - 1] == rest[k - 2] && s[k] == rest[k - 1]; }
    }
  }

  /** The merged vector holds exactly the fragments of both inputs. */
  lemma {:induction false} MergeContents(fenv: FragEnv, xs: seq<nat>, ys: seq<nat>)
    requires IxsIn(fenv, xs) && IxsIn(fenv, ys)
    requires Merge(fenv, xs, ys).Some?
    ensures IxsIn(fenv, Merge(fenv, xs, ys).value)
    ensures multiset(Merge(fenv, xs, ys).value) == multiset(xs) + multiset(ys)
    decreases |xs| + |ys|
  {
    if xs != [] && ys != [] {
      match CmpFrags(fenv[xs[0]], fenv[ys[0]])
      case Some(Less) =>
        MergeContents(fenv, xs[1..], ys);
        HeadMultiset(xs);
      case Some(Greater) =>
        MergeContents(fenv, xs, ys[1..]);
        HeadMultiset(ys);
    }
  }

  /** `add` keeps the vector sorted, so its closing `check` never fails. */
  lemma {:induction false} MergeSorted(fenv: FragEnv, xs: seq<nat>, ys: seq<nat>)
    requires IxsIn(fenv, xs) && IxsIn(fenv, ys)
    requires Sorted(fenv, xs) && Sorted(fenv, ys)
    requires Merge(fenv, xs, ys).Some?
    ensures IxsIn(fenv, Merge(fenv, xs, ys).value)
    ensures Sorted(fenv, Merge(fenv, xs, ys).value)
    decreases |xs| + |ys|
  {
    MergeContents(fenv, xs, ys);
    if xs != [] && ys != [] {
      match CmpFrags(fenv[xs[0]], fenv[ys[0]])
      case Some(Less) =>
        var rest := Merge(fenv, xs[1..], ys).value;
        MergeSorted(fenv, xs[1..], ys);
        MergeHead(fenv, xs[1..], ys);
        SortedCons(fenv, xs[0], rest);
      case Some(Greater) =>
        var rest := Merge(fenv, xs, ys[1..]).value;
        MergeSorted(fenv, xs, ys[1..]);
        MergeHead(fenv, xs, ys[1..]);
        SortedCons(fenv, ys[0], rest);
    }
  }

  /** Over well-formed fragments, `add` panics exactly when some fragment of
      one vector overlaps some fragment of the other. */
  lemma {:induction false} MergeFailsIffOverlap(fenv: FragEnv, xs: seq<nat>, ys: seq<nat>)
    requires IxsIn(fenv, xs) && IxsIn(fenv, ys) && EnvWellFormed(fenv)
    requires Sorted(fenv, xs) && Sorted(fenv, ys)
    ensures Merge(fenv, xs, ys).None? <==>
      exists i, j :: 0 <= i < |xs| && 0 <= j < |ys| && Overlap(fenv[xs[i]], fenv[ys[j]])
    decreases |xs| + |ys|
  {
    if xs != [] && ys != [] {
      SortedIncreasing(fenv, xs);
      SortedIncreasing(fenv, ys);
      match CmpFrags(fenv[xs[0]], fenv[ys[0]])
      case Some(Less) =>
        MergeFailsIffOverlap(fenv, xs[1..], ys);
        forall j | 0 <= j < |ys| ensures !Overlap(fenv[xs[0]], fenv[ys[j]]) {
          if j > 0 { LessTrans(fenv[xs[0]], fenv[ys[0]], fenv[ys[j]]); }
        }
        OverlapShift(fenv, xs, ys);
      case Some(Greater) =>
        MergeFailsIffOverlap(fenv, xs, ys[1..]);
        forall i | 0 <= i < |xs| ensures !Overlap(fenv[xs[i]], fenv[ys[0]]) {
          CmpFragsMirror(fenv[xs[0]], fenv[ys[0]]);
          if i > 0 {
            LessTrans(fenv[ys[0]], fenv[xs[0]], fenv[xs[i]]);
            CmpFragsMirror(fenv[ys[0]], fenv[xs[i]]);
          }
        }
        OverlapShiftY(fenv, xs, ys);
      case _ =>
        assert Overlap(fenv[xs[0]], fenv[ys[0]]);
    }
  }

  /** When the head of `xs` overlaps nothing in `ys`, the overlaps are those
      of the tail. */
  lemma OverlapShift(fenv: FragEnv, xs: seq<nat>, ys: seq<nat>)
    requires IxsIn(fenv, xs) && IxsIn(fenv, ys) && xs != []
    requires forall j :: 0 <= j < |ys| ==> !Overlap(fenv[xs[0]], fenv[ys[j]])
    ensures (exists i, j :: 0 <= i < |xs| && 0 <= j < |ys| && Overlap(fenv[xs[i]], fenv[ys[j]])) <==>
            (exists i, j :: 0 <= i < |xs| - 1 && 0 <= j < |ys| && Overlap(fenv[xs[1..][i]], fenv[ys[j]]))
  {
    if exists i, j :: 0 <= i < |xs| && 0 <= j < |ys| && Overlap(fenv[xs[i]], fenv[ys[j]]) {
      var i, j :| 0 <= i < |xs| && 0 <= j < |ys| && Overlap(fenv[xs[i]], fenv[ys[j]]);
      assert xs[1..][i - 1] == xs[i];
    }
    if exists i, j :: 0 <= i < |xs| - 1 && 0 <= j < |ys| && Overlap(fenv[xs[1..][i]], fenv[ys[j]]) {
      var i, j :| 0 <= i < |xs| - 1 && 0 <= j < |ys| && Overlap(fenv[xs[1..][i]], fenv[ys[j]]);
      assert xs[1..][i] == xs[i + 1];
    }
  }

  lemma OverlapShiftY(fenv: FragEnv, xs: seq<nat>, ys: seq<nat>)
    requires IxsIn(fenv, xs) && IxsIn(fenv, ys) && ys != []
    requires forall i :: 0 <= i < |xs| ==> !Overlap(fenv[xs[i]], fenv[ys[0]])
    ensures (exists i, j :: 0 <= i < |xs| && 0 <= j < |ys| && Overlap(fenv[xs[i]], fenv[ys[j]])) <==>
            (exists i, j :: 0 <= i < |xs| && 0 <= j < |ys| - 1 && Overlap(fenv[xs[i]], fenv[ys[1..][j]]))
  {
    if exists i, j :: 0 <= i < |xs| && 0 <= j < |ys| && Overlap(fenv[xs[i]], fenv[ys[j]]) {
      var i, j :| 0 <= i < |xs| && 0 <= j < |ys| && Overlap(fenv[xs[i]], fenv[ys[j]]);
      assert ys[1..][j - 1] == ys[j];
    }
    if exists i, j :: 0 <= i < |xs| && 0 <= j < |ys| - 1 && Overlap(fenv[xs[i]], fenv[ys[1..][j]]) {
      var i, j :| 0 <= i < |xs| && 0 <= j < |ys| - 1 && Overlap(fenv[xs[i]], fenv[ys[1..][j]]);
      assert ys[1..][j] == ys[j + 1];
    }
  }

  // ---------------------------------------------------------------------------
  // del

  /** The walk of `del`: equal fragments are dropped, fragments of `xs`
      before the current one of `ys` are kept; `None` where `del` panics on
      a partial overlap. */
  function DelWalk(fenv: FragEnv, xs: seq<nat>, ys: seq<nat>): Option<seq<nat>>
    requires IxsIn(fenv, xs) && IxsIn(fenv, ys)
    decreases |xs| + |ys|
  {
    if xs == [] then Some([])
    else if ys == [] then Some(xs)
    else
      match CmpFrags(fenv[xs[0]], fenv[ys[0]])
      case Some(Less) => Cons([xs[0]], DelWalk(fenv, xs[1..], ys))
      case Some(Equal) => DelWalk(fenv, xs[1..], ys[1..])
      case Some(Greater) => DelWalk(fenv, xs, ys[1..])
      case None => None
  }

  predicate SameBounds(f: RangeFrag, g: RangeFrag) { f.first == g.first && f.last == g.last }

  /** The fragments of `xs` whose bounds match no fragment of `ys`, in order. */
  ghost function Survivors(fenv: FragEnv, xs: seq<nat>, ys: seq<nat>): (r: seq<nat>)
    requires IxsIn(fenv, xs) && IxsIn(fenv, ys)
    ensures IxsIn(fenv, r)
  {
    if xs == [] then []
    else
      var rest := Survivors(fenv, xs[1..], ys);
      if exists j :: 0 <= j < |ys| && SameBounds(fenv[xs[0]], fenv[ys[j]]) then rest
      else [xs[0]] + rest
  }

  /** Dropping from `ys` a fragment that matches nothing in `xs` changes no
      survivor. */
  lemma {:induction false} SurvivorsDropY(fenv: FragEnv, xs: seq<nat>, ys: seq<nat>)
    requires IxsIn(fenv, xs) && IxsIn(fenv, ys) && ys != []
    requires forall i :: 0 <= i < |xs| ==> !SameBounds(fenv[xs[i]], fenv[ys[0]])
    ensures Survivors(fenv, xs, ys) == Survivors(fenv, xs, ys[1..])
    decreases |xs|
  {
    if xs != [] {
      SurvivorsDropY(fenv, xs[1..], ys);
      var a := exists j :: 0 <= j < |ys| && SameBounds(fenv[xs[0]], fenv[ys[j]]);
      var b := exists j :: 0 <= j < |ys| - 1 && SameBounds(fenv[xs[0]], fenv[ys[1..][j]]);
      if a {
        var j :| 0 <= j < |ys| && SameBounds(fenv[xs[0]], fenv[ys[j]]);
        assert j > 0 && ys[1..][j - 1] == ys[j];
      }
      if b {
        var j :| 0 <= j < |ys| - 1 && SameBounds(fenv[xs[0]], fenv[ys[1..][j]]);
        assert ys[1..][j] == ys[j + 1];
      }
    }
  }

  /** Over well-formed fragments, a successful `del` keeps exactly the
      fragments of `xs` that equal none of `ys`, in their order. */
  lemma {:induction false} DelKeepsSurvivors(fenv: FragEnv, xs: seq<nat>, ys: seq<nat>)
    requires IxsIn(fenv, xs) && IxsIn(fenv, ys) && EnvWellFormed(fenv)
    requires Sorted(fenv, xs) && Sorted(fenv, ys)
    requires DelWalk(fenv, xs, ys).Some?
    ensures DelWalk(fenv, xs, ys).value == Survivors(fenv, xs, ys)
    decreases |xs| + |ys|
  {
    if xs == [] {
    } else if ys == [] {
      SurvivorsNone(fenv, xs, ys);
    } else {
      var x0 := fenv[xs[0]];
      match CmpFrags(x0, fenv[ys[0]])
      case Some(Less) =>
        DelKeepsSurvivors(fenv, xs[1..], ys);
        BeforeAllNoSame(fenv, x0, ys);
      case Some(Equal) =>
        SortedIncreasing(fenv, xs);
        DelKeepsSurvivors(fenv, xs[1..], ys[1..]);
        forall i | 0 <= i < |xs| - 1 ensures !SameBounds(fenv[xs[1..][i]], fenv[ys[0]]) {
          assert xs[1..][i] == xs[i + 1];
        }
        SurvivorsDropY(fenv, xs[1..], ys);
      case Some(Greater) =>
        DelKeepsSurvivors(fenv, xs, ys[1..]);
        AfterAllNoSame(fenv, xs, fenv[ys[0]]);
        SurvivorsDropY(fenv, xs, ys);
    }
  }

  /** A well-formed fragment before the head of a sorted vector has the
      bounds of none of its fragments. */
  lemma BeforeAllNoSame(fenv: FragEnv, x0: RangeFrag, ys: seq<nat>)
    requires IxsIn(fenv, ys) && EnvWellFormed(fenv) && Sorted(fenv, ys) && ys != []
    requires WellFormed(x0) && CmpFrags(x0, fenv[ys[0]]) == Some(Less)
    ensures forall j :: 0 <= j < |ys| ==> !SameBounds(x0, fenv[ys[j]])
  {
    SortedIncreasing(fenv, ys);
    forall j | 0 < j < |ys| ensures !SameBounds(x0, fenv[ys[j]]) {
      LessTrans(x0, fenv[ys[0]], fenv[ys[j]]);
    }
  }

  /** No fragment of a sorted vector has the bounds of a well-formed fragment
      before its head. */
  lemma AfterAllNoSame(fenv: FragEnv, xs: seq<nat>, y0: RangeFrag)
    requires IxsIn(fenv, xs) && EnvWellFormed(fenv) && Sorted(fenv, xs) && xs != []
    requires WellFormed(y0) && CmpFrags(fenv[xs[0]], y0) == Some(Greater)
    ensures forall i :: 0 <= i < |xs| ==> !SameBounds(fenv[xs[i]], y0)
  {
    SortedIncreasing(fenv, xs);
    forall i | 0 < i < |xs| ensures !SameBounds(fenv[xs[i]], y0) {
      LessTrans(y0, fenv[xs[0]], fenv[xs[i]]);
    }
  }

  lemma {:induction false} SurvivorsNone(fenv: FragEnv, xs: seq<nat>, ys: seq<nat>)
    requires IxsIn(fenv, xs) && IxsIn(fenv, ys) && ys == []
    ensures Survivors(fenv, xs, ys) == xs
    decreases |xs|
  {
    if xs != [] {
      SurvivorsNone(fenv, xs[1..], ys);
    }
  }

  /** The survivors keep the order of `xs`, so `del`'s closing `check` never
      fails. */
  lemma {:induction false} SurvivorsSorted(fenv: FragEnv, xs: seq<nat>, ys: seq<nat>)
    requires IxsIn(fenv, xs) && IxsIn(fenv, ys) && Increasing(fenv, xs)
    ensures Sorted(fenv, Survivors(fenv, xs, ys))
    ensures forall v :: v in Survivors(fenv, xs, ys) ==> v in xs
    decreases |xs|
  {
    if xs != [] {
      var rest := Survivors(fenv, xs[1..], ys);
      SurvivorsSorted(fenv, xs[1..], ys);
      if rest != [] {
        assert rest[0] in xs[1..];
        var i :| 0 <= i < |xs[1..]| && xs[1..][i] == rest[0];
        assert xs[i + 1] == rest[0];
      }
      SortedCons(fenv, xs[0], rest);
    }
  }

  /** A partial overlap: neither before, after, nor equal. */
  predicate PartialOverlap(f1: RangeFrag, f2: RangeFrag) { CmpFrags(f1, f2) == None }

  /** Some fragment of `xs` partially overlaps some fragment of `ys`. */
  predicate AnyPartial(fenv: FragEnv, xs: seq<nat>, ys: seq<nat>)
    requires IxsIn(fenv, xs) && IxsIn(fenv, ys)
  {
    exists i, j :: 0 <= i < |xs| && 0 <= j < |ys| && PartialOverlap(fenv[xs[i]], fenv[ys[j]])
  }

  /** Over well-formed fragments, `del` panics exactly when some fragment of
      `xs` partially overlaps some fragment of `ys`. */
  lemma {:induction false} DelFailsIffPartialOverlap(fenv: FragEnv, xs: seq<nat>, ys: seq<nat>)
    requires IxsIn(fenv, xs) && IxsIn(fenv, ys) && EnvWellFormed(fenv)
    requires Sorted(fenv, xs) && Sorted(fenv, ys)
    ensures DelWalk(fenv, xs, ys).None? <==> AnyPartial(fenv, xs, ys)
    decreases |xs| + |ys|
  {
    if xs != [] && ys != [] {
      var x0, y0 := fenv[xs[0]], fenv[ys[0]];
      match CmpFrags(x0, y0)
      case Some(Less) =>
        DelFailsIffPartialOverlap(fenv, xs[1..], ys);
        BeforeAllNoPartial(fenv, x0, ys);
        PartialShiftX(fenv, xs, ys);
      case Some(Greater) =>
        DelFailsIffPartialOverlap(fenv, xs, ys[1..]);
        AfterAllNoPartial(fenv, xs, y0);
        PartialShiftY(fenv, xs, ys);
      case Some(Equal) =>
        DelFailsIffPartialOverlap(fenv, xs[1..], ys[1..]);
        SortedIncreasing(fenv, xs);
        SortedIncreasing(fenv, ys);
        PartialShiftEqual(fenv, xs, ys);
      case None =>
        assert PartialOverlap(x0, y0);
    }
  }

  /** A fragment before the head of a sorted vector partially overlaps none
      of it. */
  lemma BeforeAllNoPartial(fenv: FragEnv, x0: RangeFrag, ys: seq<nat>)
    requires IxsIn(fenv, ys) && EnvWellFormed(fenv) && Sorted(fenv, ys) && ys != []
    requires CmpFrags(x0, fenv[ys[0]]) == Some(Less)
    ensures forall j :: 0 <= j < |ys| ==> !PartialOverlap(x0, fenv[ys[j]])
  {
    SortedIncreasing(fenv, ys);
    forall j | 0 < j < |ys| ensures !PartialOverlap(x0, fenv[ys[j]]) {
      LessTrans(x0, fenv[ys[0]], fenv[ys[j]]);
    }
  }

  /** A fragment after the head of a sorted vector partially overlaps none
      of it. */
  lemma AfterAllNoPartial(fenv: FragEnv, xs: seq<nat>, y0: RangeFrag)
    requires IxsIn(fenv, xs) && EnvWellFormed(fenv) && Sorted(fenv, xs) && xs != []
    requires CmpFrags(fenv[xs[0]], y0) == Some(Greater)
    ensures forall i :: 0 <= i < |xs| ==> !PartialOverlap(fenv[xs[i]], y0)
  {
    SortedIncreasing(fenv, xs);
    forall i | 0 < i < |xs| ensures !PartialOverlap(fenv[xs[i]], y0) {
      LessTrans(y0, fenv[xs[0]], fenv[xs[i]]);
    }
  }

  lemma PartialShiftX(fenv: FragEnv, xs: seq<nat>, ys: seq<nat>)
    requires IxsIn(fenv, xs) && IxsIn(fenv, ys) && xs != []
    requires forall j :: 0 <= j < |ys| ==> !PartialOverlap(fenv[xs[0]], fenv[ys[j]])
    ensures AnyPartial(fenv, xs, ys) <==> AnyPartial(fenv, xs[1..], ys)
  {
    if AnyPartial(fenv, xs, ys) {
      var i, j :| 0 <= i < |xs| && 0 <= j < |ys| && PartialOverlap(fenv[xs[i]], fenv[ys[j]]);
      assert xs[1..][i - 1] == xs[i];
    }
    if AnyPartial(fenv, xs[1..], ys) {
      var i, j :| 0 <= i < |xs| - 1 && 0 <= j < |ys| && PartialOverlap(fenv[xs[1..][i]], fenv[ys[j]]);
      assert xs[1..][i] == xs[i + 1];
    }
  }

  lemma PartialShiftY(fenv: FragEnv, xs: seq<nat>, ys: seq<nat>)
    requires IxsIn(fenv, xs) && IxsIn(fenv, ys) && ys != []
    requires forall i :: 0 <= i < |xs| ==> !PartialOverlap(fenv[xs[i]], fenv[ys[0]])
    ensures AnyPartial(fenv, xs, ys) <==> AnyPartial(fenv, xs, ys[1..])
  {
    if AnyPartial(fenv, xs, ys) {
      var i, j :| 0 <= i < |xs| && 0 <= j < |ys| && PartialOverlap(fenv[xs[i]], fenv[ys[j]]);
      assert ys[1..][j - 1] == ys[j];
    }
    if AnyPartial(fenv, xs, ys[1..]) {
      var i, j :| 0 <= i < |xs| && 0 <= j < |ys| - 1 && PartialOverlap(fenv[xs[i]], fenv[ys[1..][j]]);
      assert ys[1..][j] == ys[j + 1];
    }
  }

  lemma PartialShiftEqual(fenv: FragEnv, xs: seq<nat>, ys: seq<nat>)
    requires IxsIn(fenv, xs) && IxsIn(fenv, ys) && xs != [] && ys != []
    requires Increasing(fenv, xs) && Increasing(fenv, ys)
    requires CmpFrags(fenv[xs[0]], fenv[ys[0]]) == Some(Equal)
    ensures AnyPartial(fenv, xs, ys) <==> AnyPartial(fenv, xs[1..], ys[1..])
  {
    var x0, y0 := fenv[xs[0]], fenv[ys[0]];
    forall j | 0 <= j < |ys| ensures !PartialOverlap(x0, fenv[ys[j]]) {
      if j > 0 { assert CmpFrags(y0, fenv[ys[j]]) == Some(Less); }
    }
    forall i | 0 <= i < |xs| - 1 ensures !PartialOverlap(fenv[xs[1..][i]], y0) {
      assert xs[1..][i] == xs[i + 1];
      assert CmpFrags(x0, fenv[xs[i + 1]]) == Some(Less);
    }
    PartialShiftX(fenv, xs, ys);
    PartialShiftY(fenv, xs[1..], ys);
  }

  // ---------------------------------------------------------------------------
  // new: sorting with a comparator that panics on overlapping fragments

  /** Inserts one fragment into a sorted vector; `None` where the comparator
      meets an overlapping fragment. */
  function InsertFrag(fenv: FragEnv, x: nat, s: seq<nat>): (r: Option<seq<nat>>)
    requires x < |fenv| && IxsIn(fenv, s)
    ensures r.Some? ==> IxsIn(fenv, r.value) && |r.value| == |s| + 1
    decreases |s|
  {
    if s == [] then Some([x])
    else
      match CmpFrags(fenv[x], fenv[s[0]])
      case Some(Less) => Some([x] + s)
      case Some(Greater) => Cons([s[0]], InsertFrag(fenv, x, s[1..]))
      case _ => None
  }

  /** The sort of `SortedRangeFragIxs::new`, as an insertion sort. */
  function SortFrags(fenv: FragEnv, src: seq<nat>): (r: Option<seq<nat>>)
    requires IxsIn(fenv, src)
    ensures r.Some? ==> IxsIn(fenv, r.value) && |r.value| == |src|
    decreases |src|
  {
    if src == [] then Some([])
    else
      var t := SortFrags(fenv, src[1..]);
      if t.None? then None else InsertFrag(fenv, src[0], t.value)
  }

  lemma {:induction false} InsertFragSorted(fenv: FragEnv, x: nat, s: seq<nat>)
    requires x < |fenv| && IxsIn(fenv, s) && Sorted(fenv, s)
    requires InsertFrag(fenv, x, s).Some?
    ensures IxsIn(fenv, InsertFrag(fenv, x, s).value) && Sorted(fenv, InsertFrag(fenv, x, s).value)
    ensures multiset(InsertFrag(fenv, x, s).value) == multiset(s) + multiset{x}
    ensures var r := InsertFrag(fenv, x, s).value; r[0] == x || r[0] == s[0]
    decreases |s|
  {
    if s != [] {
      match CmpFrags(fenv[x], fenv[s[0]])
      case Some(Less) =>
        SortedCons(fenv, x, s);
      case Some(Greater) =>
        var rest := InsertFrag(fenv, x, s[1..]).value;
        InsertFragSorted(fenv, x, s[1..]);
        HeadMultiset(s);
        SortedCons(fenv, s[0], rest);
    }
  }

  /** Over well-formed fragments, inserting fails exactly when the new
      fragment overlaps one already in the vector. */
  lemma {:induction false} InsertFragFailsIffOverlap(fenv: FragEnv, x: nat, s: seq<nat>)
    requires x < |fenv| && IxsIn(fenv, s) && Sorted(fenv, s) && EnvWellFormed(fenv)
    ensures InsertFrag(fenv, x, s).None? <==> exists j :: 0 <= j < |s| && Overlap(fenv[x], fenv[s[j]])
    decreases |s|
  {
    if s != [] {
      SortedIncreasing(fenv, s);
      match CmpFrags(fenv[x], fenv[s[0]])
      case Some(Less) =>
        forall j | 0 <= j < |s| ensures !Overlap(fenv[x], fenv[s[j]]) {
          if j > 0 { LessTrans(fenv[x], fenv[s[0]], fenv[s[j]]); }
        }
      case Some(Greater) =>
        InsertFragFailsIffOverlap(fenv, x, s[1..]);
        if exists j :: 0 <= j < |s| && Overlap(fenv[x], fenv[s[j]]) {
          var j :| 0 <= j < |s| && Overlap(fenv[x], fenv[s[j]]);
          assert s[1..][j - 1] == s[j];
        }
        if exists j :: 0 <= j < |s| - 1 && Overlap(fenv[x], fenv[s[1..][j]]) {
          var j :| 0 <= j < |s| - 1 && Overlap(fenv[x], fenv[s[1..][j]]);
          assert s[1..][j] == s[j + 1];
        }
      case _ =>
        assert Overlap(fenv[x], fenv[s[0]]);
    }
  }

  /** A successful sort is a sorted permutation of its input. */
  lemma {:induction false} SortFragsSorted(fenv: FragEnv, src: seq<nat>)
    requires IxsIn(fenv, src) && SortFrags(fenv, src).Some?
    ensures IxsIn(fenv, SortFrags(fenv, src).value) && Sorted(fenv, SortFrags(fenv, src).value)
    ensures multiset(SortFrags(fenv, src).value) == multiset(src)
    decreases |src|
  {
    if src != [] {
      SortFragsSorted(fenv, src[1..]);
      InsertFragSorted(fenv, src[0], SortFrags(fenv, src[1..]).value);
      HeadMultiset(src);
    }
  }

  /** Two different positions of the input whose fragments overlap (the
      same index given twice overlaps itself). */
  predicate HasOverlappingPair(fenv: FragEnv, src: seq<nat>)
    requires IxsIn(fenv, src)
  {
    exists i, j :: 0 <= i < j < |src| && Overlap(fenv[src[i]], fenv[src[j]])
  }

  /** Over well-formed fragments, `new` panics exactly when two entries of
      the input overlap. */
  lemma {:induction false} SortFragsFailsIffOverlap(fenv: FragEnv, src: seq<nat>)
    requires IxsIn(fenv, src) && EnvWellFormed(fenv)
    ensures SortFrags(fenv, src).None? <==> HasOverlappingPair(fenv, src)
    decreases |src|
  {
    if src != [] {
      var tail := src[1..];
      SortFragsFailsIffOverlap(fenv, tail);
      if SortFrags(fenv, tail).Some? {
        var t := SortFrags(fenv, tail).value;
        SortFragsSorted(fenv, tail);
        InsertFragFailsIffOverlap(fenv, src[0], t);
        HeadOverlapViaPermutation(fenv, src, t);
      } else {
        var i, j :| 0 <= i < j < |tail| && Overlap(fenv[tail[i]], fenv[tail[j]]);
        assert src[i + 1] == tail[i] && src[j + 1] == tail[j];
      }
    }
  }

  /** The head of the input overlaps an element of the sorted tail iff it
      overlaps some later entry of the input; with a tail free of overlaps,
      that is the whole of `HasOverlappingPair`. */
  lemma HeadOverlapViaPermutation(fenv: FragEnv, src: seq<nat>, t: seq<nat>)
    requires IxsIn(fenv, src) && IxsIn(fenv, t) && src != [] && EnvWellFormed(fenv)
    requires multiset(t) == multiset(src[1..])
    requires !HasOverlappingPair(fenv, src[1..])
    ensures (exists j :: 0 <= j < |t| && Overlap(fenv[src[0]], fenv[t[j]])) <==> HasOverlappingPair(fenv, src)
  {
    var tail := src[1..];
    if exists j :: 0 <= j < |t| && Overlap(fenv[src[0]], fenv[t[j]]) {
      var j :| 0 <= j < |t| && Overlap(fenv[src[0]], fenv[t[j]]);
      assert t[j] in multiset(tail);
      var k :| 0 <= k < |tail| && tail[k] == t[j];
      assert src[k + 1] == tail[k];
      assert 0 <= 0 < k + 1 < |src| && Overlap(fenv[src[0]], fenv[src[k + 1]]);
    }
    if HasOverlappingPair(fenv, src) {
      var i, j :| 0 <= i < j < |src| && Overlap(fenv[src[i]], fenv[src[j]]);
      assert i == 0;
      assert src[j] in multiset(t);
      var k :| 0 <= k < |t| && t[k] == src[j];
    }
  }

  // ---------------------------------------------------------------------------
  // The loops of add and del, over the two index vectors

  /** One step of `merge`'s walk from positions `ix` and `iy`. */
  lemma MergeAt(fenv: FragEnv, xs: seq<nat>, ys: seq<nat>, ix: nat, iy: nat)
    requires IxsIn(fenv, xs) && IxsIn(fenv, ys) && ix < |xs| && iy < |ys|
    ensures Merge(fenv, xs[ix..], ys[iy..]) ==
      match CmpFrags(fenv[xs[ix]], fenv[ys[iy]])
      case Some(Less) => Cons([xs[ix]], Merge(fenv, xs[ix + 1..], ys[iy..]))
      case Some(Greater) => Cons([ys[iy]], Merge(fenv, xs[ix..], ys[iy + 1..]))
      case _ => None
  {
    assert xs[ix..][1..] == xs[ix + 1..] && ys[iy..][1..] == ys[iy + 1..];
    assert xs[ix..][0] == xs[ix] && ys[iy..][0] == ys[iy];
  }

  /** One step of `del`'s walk from positions `ix` and `iy`. */
  lemma DelAt(fenv: FragEnv, xs: seq<nat>, ys: seq<nat>, ix: nat, iy: nat)
    requires IxsIn(fenv, xs) && IxsIn(fenv, ys) && ix < |xs| && iy < |ys|
    ensures DelWalk(fenv, xs[ix..], ys[iy..]) ==
      match CmpFrags(fenv[xs[ix]], fenv[ys[iy]])
      case Some(Less) => Cons([xs[ix]], DelWalk(fenv, xs[ix + 1..], ys[iy..]))
      case Some(Equal) => DelWalk(fenv, xs[ix + 1..], ys[iy + 1..])
      case Some(Greater) => DelWalk(fenv, xs[ix..], ys[iy + 1..])
      case None => None
  {
    assert xs[ix..][1..] == xs[ix + 1..] && ys[iy..][1..] == ys[iy + 1..];
    assert xs[ix..][0] == xs[ix] && ys[iy..][0] == ys[iy];
  }

  /** The three loops of `add`, building the merged vector. */
  method MergeIxs(fenv: FragEnv, xs: seq<nat>, ys: seq<nat>) returns (r: Option<seq<nat>>)
    requires IxsIn(fenv, xs) && IxsIn(fenv, ys)
    ensures r == Merge(fenv, xs, ys)
  {
    var ix, iy := 0, 0;
    var res: seq<nat> := [];
    assert xs[ix..] == xs && ys[iy..] == ys;
    ConsNil(Merge(fenv, xs, ys));
    while ix < |xs| && iy < |ys|
      invariant 0 <= ix <= |xs| && 0 <= iy <= |ys|
      invariant Merge(fenv, xs, ys) == Cons(res, Merge(fenv, xs[ix..], ys[iy..]))
    {
      MergeAt(fenv, xs, ys, ix, iy);
      match CmpFrags(fenv[xs[ix]], fenv[ys[iy]])
      case Some(Less) =>
        ConsCons(res, [xs[ix]], Merge(fenv, xs[ix + 1..], ys[iy..]));
        res := res + [xs[ix]];
        ix := ix + 1;
      case Some(Greater) =>
        ConsCons(res, [ys[iy]], Merge(fenv, xs[ix..], ys[iy + 1..]));
        res := res + [ys[iy]];
        iy := iy + 1;
      case _ =>
        return None;
    }
    // One of the two vectors is used up; the other is copied as it is.
    if ix == |xs| {
      assert xs[ix..] == [] && xs[ix..] + ys[iy..] == ys[iy..];
    } else {
      assert ys[iy..] == [] && xs[ix..] + ys[iy..] == xs[ix..];
    }
    assert Merge(fenv, xs[ix..], ys[iy..]) == Some(xs[ix..] + ys[iy..]);
    assert res + (xs[ix..] + ys[iy..]) == res + xs[ix..] + ys[iy..];
    res := CopyRest(res, xs, ix);
    res := CopyRest(res, ys, iy);
    r := Some(res);
  }

  /** The copying tail of `merge` and `del`: pushes `src[from..]` onto `dst`
      one element at a time. */
  method CopyRest(dst: seq<nat>, src: seq<nat>, from: nat) returns (r: seq<nat>)
    requires from <= |src|
    ensures r == dst + src[from..]
  {
    r := dst;
    var i := from;
    while i < |src|
      invariant from <= i <= |src|
      invariant r + src[i..] == dst + src[from..]
    {
      assert src[i..] == [src[i]] + src[i + 1..];
      r := r + [src[i]];
      i := i + 1;
    }
  }

  method DelIxs(fenv: FragEnv, xs: seq<nat>, ys: seq<nat>) returns (r: Option<seq<nat>>)
    requires IxsIn(fenv, xs) && IxsIn(fenv, ys)
    ensures r == DelWalk(fenv, xs, ys)
  {
    var ix, iy := 0, 0;
    var res: seq<nat> := [];
    assert xs[ix..] == xs && ys[iy..] == ys;
    ConsNil(DelWalk(fenv, xs, ys));
    while ix < |xs| && iy < |ys|
      invariant 0 <= ix <= |xs| && 0 <= iy <= |ys|
      invariant DelWalk(fenv, xs, ys) == Cons(res, DelWalk(fenv, xs[ix..], ys[iy..]))
    {
      DelAt(fenv, xs, ys, ix, iy);
      match CmpFrags(fenv[xs[ix]], fenv[ys[iy]])
      case Some(Less) =>
        ConsCons(res, [xs[ix]], DelWalk(fenv, xs[ix + 1..], ys[iy..]));
        res := res + [xs[ix]];
        ix := ix + 1;
      case Some(Equal) =>
        ix := ix + 1;
        iy := iy + 1;
      case Some(Greater) =>
        iy := iy + 1;
      case None =>
        return None;
    }
    // What is left of `xs` survives.
    if ix == |xs| {
      assert DelWalk(fenv, xs[ix..], ys[iy..]) == Some([]);
    } else {
      assert DelWalk(fenv, xs[ix..], ys[iy..]) == Some(xs[ix..]);
    }
    res := CopyRest(res, xs, ix);
    r := Some(res);
  }

  // ---------------------------------------------------------------------------
  // The vector itself

  class SortedRangeFragIxs {
    var fragIxs: seq<nat>

    /** The invariant `check` enforces after every operation. */
    ghost predicate Valid(fenv: FragEnv)
      reads this
    {
      IxsIn(fenv, fragIxs) && Sorted(fenv, fragIxs)
    }

    constructor FromVec(ixs: seq<nat>)
      ensures fragIxs == ixs
    {
      fragIxs := ixs;
    }

    /** `check`: `false` where the source panics. */
    method Check(fenv: FragEnv) returns (ok: bool)
      requires IxsIn(fenv, fragIxs)
      ensures ok == Sorted(fenv, fragIxs)
    {
      ok := true;
      var i := 1;
      while i < |fragIxs|
        invariant 1 <= i <= |fragIxs| || |fragIxs| <= 1
        invariant ok == (forall k :: 0 < k < i && k < |fragIxs| ==>
                           CmpFrags(fenv[fragIxs[k - 1]], fenv[fragIxs[k]]) == Some(Less))
      {
        if CmpFrags(fenv[fragIxs[i - 1]], fenv[fragIxs[i]]) != Some(Less) {
          ok := false;
          return;
        }
        i := i + 1;
      }
    }

    /** `SortedRangeFragIxs::new`: sorts a copy of `source`; fails where the
        comparator (or the closing `check`) panics on overlapping fragments. */
    static method New(source: seq<nat>, fenv: FragEnv) returns (r: Result<SortedRangeFragIxs>)
      requires IxsIn(fenv, source)
      ensures r.Success? <==> SortFrags(fenv, source).Some?
      ensures r.Success? ==> fresh(r.value) && r.value.Valid(fenv)
      ensures r.Success? ==> multiset(r.value.fragIxs) == multiset(source)
    {
      var sorted := SortFrags(fenv, source);
      if sorted.None? {
        return Failure("SortedRangeFragIxs::new: overlapping Frags!");
      }
      SortFragsSorted(fenv, source);
      var res := new SortedRangeFragIxs.FromVec(sorted.value);
      var ok := res.Check(fenv);
      assert ok;
      r := Success(res);
    }

    /** `SortedRangeFragIxs::unit`. */
    static method Unit(fix: nat, fenv: FragEnv) returns (res: SortedRangeFragIxs)
      requires fix < |fenv|
      ensures fresh(res) && res.fragIxs == [fix] && res.Valid(fenv)
    {
      res := new SortedRangeFragIxs.FromVec([fix]);
    }

    /** `add`: merges `toAdd` into this vector; `false` where the source
        panics because the two intersect, leaving this vector as it was. */
    method Add(toAdd: SortedRangeFragIxs, fenv: FragEnv) returns (ok: bool)
      requires Valid(fenv) && toAdd.Valid(fenv)
      modifies this
      ensures ok == Merge(fenv, old(fragIxs), old(toAdd.fragIxs)).Some?
      ensures ok ==> fragIxs == Merge(fenv, old(fragIxs), old(toAdd.fragIxs)).value && Valid(fenv)
      ensures !ok ==> fragIxs == old(fragIxs)
    {
      var merged := MergeIxs(fenv, fragIxs, toAdd.fragIxs);
      if merged.None? {
        return false;
      }
      MergeSorted(fenv, fragIxs, toAdd.fragIxs);
      fragIxs := merged.value;
      ok := true;
    }

    /** `can_add`: the walk of `add` without building the result; `true`
        exactly where `add` would not panic. */
    method CanAdd(toAdd: SortedRangeFragIxs, fenv: FragEnv) returns (ok: bool)
      requires Valid(fenv) && toAdd.Valid(fenv)
      ensures ok == Merge(fenv, fragIxs, toAdd.fragIxs).Some?
    {
      var xs, ys := fragIxs, toAdd.fragIxs;
      var ix, iy := 0, 0;
      while ix < |xs| && iy < |ys|
        invariant 0 <= ix <= |xs| && 0 <= iy <= |ys|
        invariant Merge(fenv, xs, ys).Some? == Merge(fenv, xs[ix..], ys[iy..]).Some?
      {
        match CmpFrags(fenv[xs[ix]], fenv[ys[iy]])
        case Some(Less) =>
          assert xs[ix..][1..] == xs[ix + 1..];
          ix := ix + 1;
        case Some(Greater) =>
          assert ys[iy..][1..] == ys[iy + 1..];
          iy := iy + 1;
        case _ =>
          return false;
      }
      ok := true;
    }

    /** `del`: removes the fragments equal to ones of `toDel`; `false` where
        the source panics on a partial overlap. */
    method Del(toDel: SortedRangeFragIxs, fenv: FragEnv) returns (ok: bool)
      requires Valid(fenv) && toDel.Valid(fenv) && EnvWellFormed(fenv)
      modifies this
      ensures ok == DelWalk(fenv, old(fragIxs), old(toDel.fragIxs)).Some?
      ensures ok ==> fragIxs == DelWalk(fenv, old(fragIxs), old(toDel.fragIxs)).value && Valid(fenv)
      ensures !ok ==> fragIxs == old(fragIxs)
    {
      var kept := DelIxs(fenv, fragIxs, toDel.fragIxs);
      if kept.None? {
        return false;
      }
      DelKeepsSurvivors(fenv, fragIxs, toDel.fragIxs);
      SortedIncreasing(fenv, fragIxs);
      SurvivorsSorted(fenv, fragIxs, toDel.fragIxs);
      fragIxs := kept.value;
      ok := true;
    }

    /** `can_add_if_we_first_del`: deletes from a clone, then asks `can_add`;
        the `del` on the clone may itself panic. */
    method CanAddIfWeFirstDel(toDel: SortedRangeFragIxs, toAdd: SortedRangeFragIxs, fenv: FragEnv)
      returns (r: Result<bool>)
      requires Valid(fenv) && toDel.Valid(fenv) && toAdd.Valid(fenv) && EnvWellFormed(fenv)
      ensures var d := DelWalk(fenv, fragIxs, toDel.fragIxs);
        r.Success? <==> d.Some?
      ensures var d := DelWalk(fenv, fragIxs, toDel.fragIxs);
        r.Success? ==> IxsIn(fenv, d.value) && r.value == Merge(fenv, d.value, toAdd.fragIxs).Some?
    {
      var afterDel := new SortedRangeFragIxs.FromVec(fragIxs);
      var deleted := afterDel.Del(toDel, fenv);
      if !deleted {
        return Failure("SortedRangeFragIxs::del: partial overlap");
      }
      var ok := afterDel.CanAdd(toAdd, fenv);
      r := Success(ok);
    }
  }

  // ---------------------------------------------------------------------------
  // The unit test `test_sorted_frag_ranges`

  /** The test's fragment environment: 3u, 3d, 4u, 3u-5u, 3d-5d, 3d-5u,
      3u-5d, 6u-6d, 7u-7d, 10u, 12u, at indices 0 to 10. */
  function TestEnv(): (fenv: FragEnv)
    ensures |fenv| == 11 && EnvWellFormed(fenv)
  {
    [TestFrag(3, Use, 3, Use), TestFrag(3, Def, 3, Def), TestFrag(4, Use, 4, Use),
     TestFrag(3, Use, 5, Use), TestFrag(3, Def, 5, Def), TestFrag(3, Def, 5, Use),
     TestFrag(3, Use, 5, Def), TestFrag(6, Use, 6, Def), TestFrag(7, Use, 7, Def),
     TestFrag(10, Use, 10, Use), TestFrag(12, Use, 12, Use)]
  }

  /** The test's `gen_fix`: a local fragment of block 123. */
  function TestFrag(i: u32, p: Point, j: u32, q: Point): RangeFrag
  {
    RangeFrag(123, Local, InstPoint(i, p), InstPoint(j, q), 0)
  }

  /** How the test's fragments 3u, 6u-6d, 7u-7d, 10u and 12u compare. */
  lemma TestEnvOrder(i: nat, j: nat)
    requires i in [0, 7, 8, 9, 10] && j in [0, 7, 8, 9, 10]
    ensures CmpFrags(TestEnv()[i], TestEnv()[j]) ==
      if i == j then Some(Equal) else if i < j then Some(Less) else Some(Greater)
  {
  }

    /** The fragments the `add` and `del` tests use are strictly ordered by
      index. */
  lemma TestEnvOrders()
    ensures forall i, j :: i in [0, 7, 8, 9, 10] && j in [0, 7, 8, 9, 10] ==>
      CmpFrags(TestEnv()[i], TestEnv()[j]) ==
        if i == j then Some(Equal) else if i < j then Some(Less) else Some(Greater)
  {
    forall i, j | i in [0, 7, 8, 9, 10] && j in [0, 7, 8, 9, 10]
      ensures CmpFrags(TestEnv()[i], TestEnv()[j]) ==
        if i == j then Some(Equal) else if i < j then Some(Less) else Some(Greater)
    {
      TestEnvOrder(i, j);
    }
  }

  /** `add` on the test's vectors. */
  lemma MergeTestCases()
    ensures var e := TestEnv();
      Merge(e, [7, 8, 9], [0, 10]) == Some([0, 7, 8, 9, 10]) &&
      Merge(e, [0, 10], [7, 8, 9]) == Some([0, 7, 8, 9, 10]) &&
      Merge(e, [0, 10], []) == Some([0, 10]) &&
      Merge(e, [0, 10], [0, 10]) == None
  {
    var e := TestEnv();
    TestEnvOrders();
    assert [7, 8, 9][1..] == [8, 9] && [8, 9][1..] == [9] && [9][1..] == [];
    assert [0, 10][1..] == [10] && [10][1..] == [];
    assert [9] + [10] == [9, 10] && [8] + [9, 10] == [8, 9, 10] && [7] + [8, 9, 10] == [7, 8, 9, 10];
    assert [0] + [7, 8, 9, 10] == [0, 7, 8, 9, 10];
    assert Merge(e, [9], [10]) == Some([9, 10]);
    assert Merge(e, [8, 9], [10]) == Some([8, 9, 10]);
    assert Merge(e, [7, 8, 9], [10]) == Some([7, 8, 9, 10]);
    assert Merge(e, [10], [9]) == Some([9, 10]);
    assert Merge(e, [10], [8, 9]) == Some([8, 9, 10]);
    assert Merge(e, [10], [7, 8, 9]) == Some([7, 8, 9, 10]);
  }

  /** The test that deletes and then adds again. */
  lemma DelThenAddTestCases()
    ensures var e := TestEnv();
      DelWalk(e, [7, 8, 9], [9, 10]) == Some([7, 8]) &&
      Merge(e, [7, 8], [0, 10]).Some? && Merge(e, [7, 8], [8]).None?
  {
    var e := TestEnv();
    TestEnvOrders();
    assert [7, 8, 9][1..] == [8, 9] && [8, 9][1..] == [9] && [9][1..] == [];
    assert [0, 10][1..] == [10] && [10][1..] == [] && [7, 8][1..] == [8] && [8][1..] == [];
    assert [0] + [10] == [0, 10] && [7] + [8] == [7, 8] && [8] + [] == [8];
    assert DelWalk(e, [9], [9, 10]) == Some([]);
    assert DelWalk(e, [8, 9], [9, 10]) == Some([8]);
  }

  /** `del` on the test's vectors, where nothing or everything is
      removed. */
  lemma DelTestCases()
    ensures var e := TestEnv();
      DelWalk(e, [], [0, 10]) == Some([]) &&
      DelWalk(e, [7, 8, 9], [0, 10]) == Some([7, 8, 9]) &&
      DelWalk(e, [0, 10], [7, 8, 9]) == Some([0, 10])
  {
    var e := TestEnv();
    TestEnvOrders();
    assert [7, 8, 9][1..] == [8, 9] && [8, 9][1..] == [9] && [9][1..] == [];
    assert [0, 10][1..] == [10] && [10][1..] == [];
    assert [9] + [] == [9] && [8] + [9] == [8, 9] && [7] + [8, 9] == [7, 8, 9];
    assert [10] + [] == [10] && [0] + [10] == [0, 10];
    assert DelWalk(e, [9], [10]) == Some([9]);
    assert DelWalk(e, [8, 9], [10]) == Some([8, 9]);
    assert DelWalk(e, [7, 8, 9], [10]) == Some([7, 8, 9]);
    assert DelWalk(e, [10], [7, 8, 9]) == Some([10]);
    assert DelWalk(e, [10], [8, 9]) == Some([10]);
    assert DelWalk(e, [10], [9]) == Some([10]);
  }

  /** `del` on the test's vectors, removing some fragments. */
  lemma DelSomeTestCases()
    ensures var e := TestEnv();
      DelWalk(e, [7, 8, 9], [7, 8]) == Some([9]) &&
      DelWalk(e, [7, 8, 9], [9]) == Some([7, 8]) &&
      DelWalk(e, [7, 8, 9], [8]) == Some([7, 9])
  {
    var e := TestEnv();
    TestEnvOrders();
    assert [7, 8, 9][1..] == [8, 9] && [8, 9][1..] == [9] && [9][1..] == [];
    assert [7, 8][1..] == [8] && [8][1..] == [];
    assert [9] + [] == [9] && [8] + [] == [8] && [7] + [8] == [7, 8] && [7] + [9] == [7, 9];
    assert DelWalk(e, [9], [8]) == Some([9]);
    assert DelWalk(e, [8, 9], [8]) == Some([9]);
    assert DelWalk(e, [9], []) == Some([9]);
  }

  /** The commented-out construction tests: `new` panics on overlapping
      fragments. */
  lemma NewTestCases()
    ensures var e := TestEnv();
      SortFrags(e, [0, 0]).None? && SortFrags(e, [3, 4]).None? &&
      SortFrags(e, [2, 0]) == Some([0, 2])
  {
    var e := TestEnv();
    assert [0, 0][1..] == [0] && [3, 4][1..] == [4] && [2, 0][1..] == [0] && [0][1..] == [];
    assert SortFrags(e, [0]) == Some([0]);
    assert SortFrags(e, [4]) == Some([4]);
    assert CmpFrags(e[2], e[0]) == Some(Greater) && [0] + [2] == [0, 2];
    assert InsertFrag(e, 2, [0]) == Some([0, 2]);
  }
}
