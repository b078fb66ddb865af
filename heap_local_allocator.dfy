/** The process-local allocator (`src/heap/local_allocator.rs`): three young
    buckets whose ages rotate from one collection to the next, a mature
    bucket, the histograms of both generations and the remembered set. */
module HeapLocalAllocator {
  import opened HeapBlockList
  import opened HeapHistograms
  import opened HeapGlobalAllocator
  import opened HeapBucket
  import JlightcObject

  /** The oldest age of a young bucket. */
  const YOUNG_MAX_AGE: int := 2

  // ---------------------------------------------------------------------------
  // The rotation of the young ages

  /** What `increment_young_ages` does to one age. */
  function NextAge(age: int): int
  {
    if age == YOUNG_MAX_AGE then 0 else age + 1
  }

  /** The ages the young buckets can have: the initial ages and the states
      the rotation reaches from them. */
  predicate Rotation(ages: seq<int>)
  {
    |ages| == 3 &&
    var (a, b, c) := (ages[0], ages[1], ages[2]);
    (a == 0 && b == -1 && c == -2) || (a == 1 && b == 0 && c == -1) || (a == 2 && b == 1 && c == 0) ||
    (a == 0 && b == 2 && c == 1) || (a == 1 && b == 0 && c == 2)
  }

  /** One rotation step leads from one of these states to another. */
  lemma RotationCloses(ages: seq<int>)
    requires Rotation(ages)
    ensures Rotation([NextAge(ages[0]), NextAge(ages[1]), NextAge(ages[2])])
  {
  }

  /** In each of these states exactly one bucket has age 0. */
  lemma RotationHasOneEden(ages: seq<int>)
    requires Rotation(ages)
    ensures exists i :: 0 <= i < 3 && ages[i] == 0
    ensures forall i, j :: 0 <= i < 3 && 0 <= j < 3 && ages[i] == 0 && ages[j] == 0 ==> i == j
  {
    if ages[0] == 0 { } else if ages[1] == 0 { } else { assert ages[2] == 0; }
  }

  /** After two steps, once every bucket has a non-negative age, the
      rotation is periodic: every bucket returns to its age after three
      more. */
  lemma RotationPeriod(ages: seq<int>)
    requires Rotation(ages) && ages[2] >= 0
    ensures forall i :: 0 <= i < 3 ==> NextAge(NextAge(NextAge(ages[i]))) == ages[i]
  {
  }

  // ---------------------------------------------------------------------------
  // The allocator

  /** Every block of the buckets `bs` has at most `maxHoles` holes. */
  predicate HolesWithin(bs: seq<seq<Block>>, maxHoles: nat)
  {
    forall j, i :: 0 <= j < |bs| && 0 <= i < |bs[j]| ==> bs[j][i].holes <= maxHoles
  }

  /** A generation's available bins once the blocks of each bucket in `bs`
      have been added, bucket after bucket. */
  function BinsAfter(h0: seq<nat>, bs: seq<seq<Block>>, evacuate: bool): (r: seq<nat>)
    requires |h0| > 0 && HolesWithin(bs, |h0| - 1)
    ensures |r| == |h0|
    decreases |bs|
  {
    if bs == [] then h0
    else AddAvailable(BinsAfter(h0, bs[..|bs| - 1], evacuate), bs[|bs| - 1], evacuate)
  }

  /** The threshold bucket `k` of `bs` finds: from the bins as the buckets
      up to and including it have left them. */
  function Threshold(h0: seq<nat>, bs: seq<seq<Block>>, k: nat, evacuate: bool,
                     maxHoles: nat, marked: seq<nat>): nat
    requires |h0| == maxHoles + 1 && maxHoles < |marked| && HolesWithin(bs, maxHoles) && k < |bs|
  {
    MinBin(bs[k], evacuate, maxHoles, marked, BinsAfter(h0, bs[..k + 1], evacuate))
  }

  /** Whether one of the first `k` buckets of `bs` holds the block and its
      threshold selects it. */
  predicate FragmentedBy(b: Block, h0: seq<nat>, bs: seq<seq<Block>>, k: nat, evacuate: bool,
                         maxHoles: nat, marked: seq<nat>)
    requires |h0| == maxHoles + 1 && maxHoles < |marked| && HolesWithin(bs, maxHoles) && k <= |bs|
  {
    exists j :: 0 <= j < k && b in bs[j] && MarkedBy(b, Threshold(h0, bs, j, evacuate, maxHoles, marked))
  }

  /** Adding one more bucket's blocks to the bins. */
  lemma BinsAfterStep(h0: seq<nat>, bs: seq<seq<Block>>, k: nat, evacuate: bool)
    requires |h0| > 0 && HolesWithin(bs, |h0| - 1) && k < |bs|
    ensures BinsAfter(h0, bs[..k + 1], evacuate) == AddAvailable(BinsAfter(h0, bs[..k], evacuate), bs[k], evacuate)
  {
    assert bs[..k + 1][..k] == bs[..k];
  }

  /** Taking one more bucket into account: a block is selected by one of the
      first `k + 1` buckets exactly when one of the first `k` selects it or
      bucket `k` holds it and its threshold selects it. */
  lemma FragmentedByStep(b: Block, h0: seq<nat>, bs: seq<seq<Block>>, k: nat, evacuate: bool,
                         maxHoles: nat, marked: seq<nat>)
    requires |h0| == maxHoles + 1 && maxHoles < |marked| && HolesWithin(bs, maxHoles) && k < |bs|
    ensures FragmentedBy(b, h0, bs, k + 1, evacuate, maxHoles, marked) <==>
      FragmentedBy(b, h0, bs, k, evacuate, maxHoles, marked) ||
      (b in bs[k] && MarkedBy(b, Threshold(h0, bs, k, evacuate, maxHoles, marked)))
  {
  }

  /** The threshold `Bucket::prepare_for_collection` finds for a bucket's
      blocks against a generation's bins: 0 when nothing is fragmented,
      otherwise the fewest holes a fragmented block has. */
  function MinBin(s: seq<Block>, evacuate: bool, maxHoles: nat, marked: seq<nat>, avail: seq<nat>): nat
    requires maxHoles < |marked| && maxHoles < |avail|
  {
    Scan(AvailableLines(s, evacuate), 0, maxHoles, 0, marked, avail)
  }

  /** Whether a threshold selects a block as fragmented. */
  predicate MarkedBy(b: Block, minBin: nat)
  {
    minBin > 0 && b.holes >= minBin
  }

  /** One bucket's `prepare_for_collection`, stated block by block over a
      set of blocks that includes the bucket's own: the bins grow by the
      bucket's available lines, and a block of the bucket gains the flag
      when the threshold found from the grown bins selects it. */
  method PrepareBucket(bucket: Bucket, h: Histograms, evacuate: bool, maxHoles: nat, ghost all: set<Block>)
    requires Distinct(bucket.blocks.blocks) && h.Valid()
    requires |h.available.Bins()| == maxHoles + 1 && maxHoles < |h.marked.Bins()|
    requires forall i :: 0 <= i < |bucket.blocks.blocks| ==> bucket.blocks.blocks[i].holes <= maxHoles
    modifies h.available.values.data, bucket.blocks.blocks`fragmented
    ensures h.available.Bins() == AddAvailable(old(h.available.Bins()), bucket.blocks.blocks, evacuate)
    ensures forall b :: b in all ==>
      b.fragmented == (old(b.fragmented) ||
        (b in bucket.blocks.blocks &&
         MarkedBy(b, MinBin(bucket.blocks.blocks, evacuate, maxHoles, h.marked.Bins(), h.available.Bins()))))
  {
    bucket.PrepareForCollection(h, evacuate, maxHoles);
    forall b | b in all && b in bucket.blocks.blocks
      ensures b.fragmented == (old(b.fragmented) ||
        MarkedBy(b, MinBin(bucket.blocks.blocks, evacuate, maxHoles, h.marked.Bins(), h.available.Bins())))
    {
      var i :| 0 <= i < |bucket.blocks.blocks| && bucket.blocks.blocks[i] == b;
    }
  }

  /** The allocation counter of a generation. The rest of
      `GenerationConfig` (`src/heap/generation_config.rs`) is not part of
      this model. */
  class GenerationConfig {
    const threshold: nat
    var allocations: nat

    constructor (threshold: nat)
      ensures this.threshold == threshold && allocations == 0
    {
      this.threshold := threshold;
      allocations := 0;
    }

    /** `increment_allocations`. */
    method IncrementAllocations()
      modifies this`allocations
      ensures allocations == old(allocations) + 1
    {
      allocations := allocations + 1;
    }
  }

  class LocalAllocator {
    const global: GlobalAllocator
    /** `young_generation`: the eden and young survivor buckets. */
    const young: seq<Bucket>
    const youngHistograms: Histograms
    const matureHistograms: Histograms
    /** The position of the eden bucket among the young buckets. */
    var edenIndex: nat
    var rememberedSet: seq<JlightcObject.Object>
    const mature: Bucket
    const youngConfig: GenerationConfig
    const matureConfig: GenerationConfig
    var evacuateYoung: bool
    var evacuateMature: bool

    /** The young and mature histograms use four separate arrays. */
    predicate SeparateHistograms()
    {
      youngHistograms.Valid() && matureHistograms.Valid() &&
      youngHistograms.available.values.data != matureHistograms.available.values.data &&
      youngHistograms.available.values.data != matureHistograms.marked.values.data &&
      youngHistograms.marked.values.data != matureHistograms.available.values.data
    }

    /** The young buckets as a set. */
    function YoungBuckets(): set<Bucket>
    {
      set b | b in young
    }

    /** The ages of the young buckets. */
    function Ages(): seq<int>
      requires |young| == 3
      reads young
    {
      [young[0].age, young[1].age, young[2].age]
    }

    /** Three distinct young buckets in one of the rotation's states, the
        eden index at the one of age 0, the two generations' histograms on
        storage of their own, and a remembered set whose objects carry the
        remembered bit, each once. */
    ghost predicate Valid()
      reads this, young, rememberedSet
    {
      |young| == 3 && young[0] != young[1] && young[0] != young[2] && young[1] != young[2] &&
      SeparateHistograms() &&
      Rotation(Ages()) && edenIndex < 3 && young[edenIndex].age == 0 &&
      (forall i :: 0 <= i < |rememberedSet| ==> rememberedSet[i].remembered) &&
      (forall i, j :: 0 <= i < j < |rememberedSet| ==> rememberedSet[i] != rememberedSet[j])
    }

    /** `LocalAllocator::new`: young ages 0, -1 and -2 with eden at 0, a
        mature bucket, empty histograms, nothing remembered and no
        evacuation planned. `MAX_HOLES` and `LINES_PER_BLOCK` size the
        histograms. */
    constructor (g: GlobalAllocator, youngThreshold: nat, matureThreshold: nat,
                 maxHoles: nat, linesPerBlock: nat)
      ensures Valid() && global == g
      ensures Ages() == [0, -1, -2] && edenIndex == 0 && mature.age == MATURE
      ensures !evacuateYoung && !evacuateMature && rememberedSet == []
      ensures youngConfig.allocations == 0 && matureConfig.allocations == 0
      ensures fresh(young[0]) && fresh(young[1]) && fresh(young[2]) && fresh(mature)
    {
      global := g;
      var b0 := new Bucket.WithAge(0);
      var b1 := new Bucket.WithAge(-1);
      var b2 := new Bucket.WithAge(-2);
      young := [b0, b1, b2];
      youngHistograms := new Histograms(maxHoles, linesPerBlock);
      matureHistograms := new Histograms(maxHoles, linesPerBlock);
      edenIndex := 0;
      rememberedSet := [];
      mature := new Bucket.WithAge(MATURE);
      youngConfig := new GenerationConfig(youngThreshold);
      matureConfig := new GenerationConfig(matureThreshold);
      evacuateYoung := false;
      evacuateMature := false;
    }

    /** `eden_space`. */
    function EdenSpace(): Bucket
      requires Valid()
      reads this, young, rememberedSet
    {
      young[edenIndex]
    }

    /** `increment_young_ages`: the bucket at the oldest young age starts
        over at 0 and every other bucket grows one older; the eden index
        moves to the bucket now of age 0, so that it is still the only
        young bucket of age 0. */
    method IncrementYoungAges()
      requires Valid()
      modifies YoungBuckets()`age, this`edenIndex
      ensures Valid()
      ensures forall i :: 0 <= i < 3 ==> young[i].age == NextAge(old(young[i].age))
      ensures EdenSpace().age == 0
      ensures forall i :: 0 <= i < 3 && young[i].age == 0 ==> i == edenIndex
    {
      ghost var ages := Ages();
      ghost var next := [NextAge(ages[0]), NextAge(ages[1]), NextAge(ages[2])];
      RotationCloses(ages);
      RotationHasOneEden(next);
      ghost var e :| 0 <= e < 3 && next[e] == 0;
      for index := 0 to 3
        invariant forall i :: 0 <= i < index ==> young[i].age == next[i]
        invariant forall i :: index <= i < 3 ==> young[i].age == ages[i]
        invariant edenIndex < 3
        invariant index > e ==> edenIndex == e
      {
        var bucket := young[index];
        if bucket.age == YOUNG_MAX_AGE {
          bucket.ResetAge();
        } else {
          bucket.IncrementAge();
        }
        if bucket.age == 0 {
          edenIndex := index;
        }
      }
      assert Ages() == next;
    }

    /** The block lists of the young buckets, in order. */
    function YoungBlocks(): (ys: seq<seq<Block>>)
      requires |young| == 3
      reads this, young, young[0].blocks, young[1].blocks, young[2].blocks
      ensures |ys| == 3 && forall k :: 0 <= k < 3 ==> ys[k] == young[k].blocks.blocks
    {
      [young[0].blocks.blocks, young[1].blocks.blocks, young[2].blocks.blocks]
    }

    /** The young half of `prepare_for_collection`: the young buckets are
        prepared in order against the young histogram, and `oldest` says
        whether one of them is at the oldest young age. */
    method PrepareYoung(maxHoles: nat, ghost all: set<Block>) returns (oldest: bool)
      requires |young| == 3 && youngHistograms.Valid()
      requires |youngHistograms.available.Bins()| == maxHoles + 1 && maxHoles < |youngHistograms.marked.Bins()|
      requires forall k :: 0 <= k < 3 ==> Distinct(young[k].blocks.blocks)
      requires HolesWithin(YoungBlocks(), maxHoles)
      modifies youngHistograms.available.values.data
      modifies young[0].blocks.blocks`fragmented, young[1].blocks.blocks`fragmented
      modifies young[2].blocks.blocks`fragmented
      ensures oldest <==> exists k :: 0 <= k < 3 && young[k].age == YOUNG_MAX_AGE
      ensures youngHistograms.available.Bins() ==
        BinsAfter(old(youngHistograms.available.Bins()), old(YoungBlocks()), evacuateYoung)
      ensures forall b :: b in all ==>
        (b.fragmented <==>
          old(b.fragmented) ||
          FragmentedBy(b, old(youngHistograms.available.Bins()), old(YoungBlocks()), 3,
                       evacuateYoung, maxHoles, old(youngHistograms.marked.Bins())))
    {
      ghost var ys := YoungBlocks();
      ghost var h0 := youngHistograms.available.Bins();
      ghost var marked := youngHistograms.marked.Bins();
      oldest := false;
      for k := 0 to 3
        invariant oldest <==>
          (0 < k && young[0].age == YOUNG_MAX_AGE) || (1 < k && young[1].age == YOUNG_MAX_AGE) ||
          (2 < k && young[2].age == YOUNG_MAX_AGE)
        invariant youngHistograms.available.Bins() == BinsAfter(h0, ys[..k], evacuateYoung)
        invariant forall b :: b in all ==>
          (b.fragmented <==> old(b.fragmented) || FragmentedBy(b, h0, ys, k, evacuateYoung, maxHoles, marked))
      {
        ghost var t := Threshold(h0, ys, k, evacuateYoung, maxHoles, marked);
        BinsAfterStep(h0, ys, k, evacuateYoung);
        PrepareBucket(young[k], youngHistograms, evacuateYoung, maxHoles, all);
        assert MinBin(young[k].blocks.blocks, evacuateYoung, maxHoles, marked, youngHistograms.available.Bins()) == t;
        forall b | b in all
          ensures b.fragmented <==> old(b.fragmented) || FragmentedBy(b, h0, ys, k + 1, evacuateYoung, maxHoles, marked)
        {
          FragmentedByStep(b, h0, ys, k, evacuateYoung, maxHoles, marked);
        }
        if young[k].age == YOUNG_MAX_AGE {
          oldest := true;
        }
      }
      assert ys[..3] == ys;
    }

    /** The mature half of `prepare_for_collection`: the mature bucket is
        prepared against the mature histogram. */
    method PrepareMature(maxHoles: nat, ghost all: set<Block>)
      requires matureHistograms.Valid() && Distinct(mature.blocks.blocks)
      requires |matureHistograms.available.Bins()| == maxHoles + 1 && maxHoles < |matureHistograms.marked.Bins()|
      requires HolesWithin([mature.blocks.blocks], maxHoles)
      modifies matureHistograms.available.values.data, mature.blocks.blocks`fragmented
      ensures matureHistograms.available.Bins() ==
        BinsAfter(old(matureHistograms.available.Bins()), old([mature.blocks.blocks]), evacuateMature)
      ensures forall b :: b in all ==>
        (b.fragmented <==>
          old(b.fragmented) ||
          FragmentedBy(b, old(matureHistograms.available.Bins()), old([mature.blocks.blocks]), 1,
                       evacuateMature, maxHoles, old(matureHistograms.marked.Bins())))
    {
      ghost var h0 := matureHistograms.available.Bins();
      ghost var ms := [mature.blocks.blocks];
      ghost var marked := matureHistograms.marked.Bins();
      BinsAfterStep(h0, ms, 0, evacuateMature);
      assert ms[..0] == [] && ms[..1] == ms;
      PrepareBucket(mature, matureHistograms, evacuateMature, maxHoles, all);
      assert MinBin(mature.blocks.blocks, evacuateMature, maxHoles, marked, matureHistograms.available.Bins()) ==
        Threshold(h0, ms, 0, evacuateMature, maxHoles, marked);
      forall b | b in all
        ensures b.fragmented <==> old(b.fragmented) || FragmentedBy(b, h0, ms, 1, evacuateMature, maxHoles, marked)
      {
        FragmentedByStep(b, h0, ms, 0, evacuateMature, maxHoles, marked);
      }
    }

    /** `prepare_for_collection`: every young bucket, and with `mature` the
        mature bucket, is prepared against its generation's histograms: the
        young buckets add their available lines to the young histogram one
        after the other, each bucket marks the blocks its own threshold
        selects (the threshold found from the histogram as that bucket left
        it), and no flag is cleared. The result, whether objects are to be
        moved, holds exactly when young evacuation is planned, a young bucket
        has reached the oldest young age, or a mature collection plans
        evacuation. The flags are stated for the blocks of `observed`, any
        set of blocks; those outside the buckets keep their flags. */
    method PrepareForCollection(isMature: bool, maxHoles: nat, ghost observed: set<Block>)
      returns (moveObjects: bool)
      requires Valid()
      requires |youngHistograms.available.Bins()| == maxHoles + 1 && maxHoles < |youngHistograms.marked.Bins()|
      requires |matureHistograms.available.Bins()| == maxHoles + 1 && maxHoles < |matureHistograms.marked.Bins()|
      requires forall k :: 0 <= k < 3 ==> Distinct(young[k].blocks.blocks)
      requires Distinct(mature.blocks.blocks)
      requires HolesWithin(YoungBlocks(), maxHoles) && HolesWithin([mature.blocks.blocks], maxHoles)
      modifies youngHistograms.available.values.data, matureHistograms.available.values.data
      modifies young[0].blocks.blocks`fragmented, young[1].blocks.blocks`fragmented
      modifies young[2].blocks.blocks`fragmented, mature.blocks.blocks`fragmented
      ensures Valid()
      ensures moveObjects <==>
        evacuateYoung || (exists k :: 0 <= k < 3 && young[k].age == YOUNG_MAX_AGE) ||
        (isMature && evacuateMature)
      ensures youngHistograms.available.Bins() ==
        BinsAfter(old(youngHistograms.available.Bins()), old(YoungBlocks()), evacuateYoung)
      ensures matureHistograms.available.Bins() ==
        if isMature then BinsAfter(old(matureHistograms.available.Bins()), old([mature.blocks.blocks]), evacuateMature)
        else old(matureHistograms.available.Bins())
      ensures forall b :: b in observed ==>
        (b.fragmented <==>
          old(b.fragmented) ||
          FragmentedBy(b, old(youngHistograms.available.Bins()), old(YoungBlocks()), 3,
                       evacuateYoung, maxHoles, old(youngHistograms.marked.Bins())) ||
          (isMature &&
           FragmentedBy(b, old(matureHistograms.available.Bins()), old([mature.blocks.blocks]), 1,
                        evacuateMature, maxHoles, old(matureHistograms.marked.Bins()))))
    {
      var oldest := PrepareYoung(maxHoles, observed);
      moveObjects := evacuateYoung || oldest;
      if isMature {
        PrepareMature(maxHoles, observed);
        if evacuateMature {
          moveObjects := true;
        }
      }
    }

    /** `remember_object`: an object already remembered is left alone;
        otherwise it gets the remembered bit and joins the set, once. */
    method RememberObject(o: JlightcObject.Object)
      requires Valid()
      modifies this`rememberedSet, o`remembered
      ensures Valid() && o.remembered
      ensures rememberedSet == if old(o.remembered) then old(rememberedSet) else old(rememberedSet) + [o]
    {
      if o.remembered {
        return;
      }
      assert o !in rememberedSet;
      o.MarkAsRemembered();
      rememberedSet := rememberedSet + [o];
    }

    /** `allocate_eden`: the eden bucket's `allocate` (a compare-and-swap
        loop, not part of this model) reports whether it took a new block;
        the young allocation counter grows exactly then. */
    method AllocateEden(newBlock: bool)
      modifies youngConfig`allocations
      ensures youngConfig.allocations == old(youngConfig.allocations) + if newBlock then 1 else 0
    {
      if newBlock {
        youngConfig.IncrementAllocations();
      }
    }

    /** `allocate_mature`: likewise for the mature bucket and counter. */
    method AllocateMature(newBlock: bool)
      modifies matureConfig`allocations
      ensures matureConfig.allocations == old(matureConfig.allocations) + if newBlock then 1 else 0
    {
      if newBlock {
        matureConfig.IncrementAllocations();
      }
    }
  }

  /** Remembering an object twice is remembering it once. */
  method RememberTwice(a: LocalAllocator, o: JlightcObject.Object)
    requires a.Valid()
    modifies a`rememberedSet, o`remembered
    ensures a.Valid() && o.remembered
    ensures a.rememberedSet == if old(o.remembered) then old(a.rememberedSet) else old(a.rememberedSet) + [o]
  {
    a.RememberObject(o);
    a.RememberObject(o);
  }
}
