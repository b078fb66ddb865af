/** `nof_parallel_worker_threads`, written the same way in
    `jlight-vm/src/runtime/state.rs` and `vm/src/runtime/state.rs`: how many
    worker threads a parallel pool gets for `ncpus` processors. Up to the
    switch point there is one per processor, but at least two; beyond it,
    only `num/den` of the further processors add a thread. */
module WorkerThreads {
  /** The processor count is a parameter: the source asks the operating
      system for it. A `den` of 0 would divide by zero. */
  function Count(ncpus: nat, num: nat, den: nat, switchPt: nat): (r: nat)
    requires den > 0
    ensures ncpus <= switchPt ==> r >= 2 && r >= ncpus
    ensures switchPt < ncpus ==> switchPt <= r
  {
    if ncpus <= switchPt then
      if ncpus <= 1 then 2 else ncpus
    else
      switchPt + ((ncpus - switchPt) * num) / den
  }

  /** Up to the switch point, the count is the processor count exactly,
      except that one processor or none still gets two threads. */
  lemma UpToSwitchPoint(ncpus: nat, num: nat, den: nat, switchPt: nat)
    requires den > 0 && ncpus <= switchPt
    ensures Count(ncpus, num, den, switchPt) == 2 <==> ncpus <= 2
    ensures 2 <= ncpus ==> Count(ncpus, num, den, switchPt) == ncpus
  {
  }

  /** A product grows with its left factor. */
  lemma {:induction false} MulMono(a: nat, b: nat, c: nat)
    requires a <= b
    ensures a * c <= b * c
    decreases b - a
  {
    if a < b {
      MulMono(a, b - 1, c);
      assert b * c == (b - 1) * c + c;
    }
  }

  /** A numerator of at most `k` times `den` gives a quotient of at most
      `k`. */
  lemma DivBound(x: nat, k: nat, den: nat)
    requires 0 < den && x <= k * den
    ensures x / den <= k
  {
    var q := x / den;
    assert q * den <= x;
    if q > k {
      MulMono(k + 1, q, den);
    }
  }

  /** A share of `k` never exceeds `k` when the ratio is at most one. */
  lemma ShareAtMost(k: nat, num: nat, den: nat)
    requires 0 < den && num <= den
    ensures (k * num) / den <= k
  {
    MulMono(num, den, k);
    assert k * num == num * k && k * den == den * k;
    DivBound(k * num, k, den);
  }

  /** With a ratio of at most one, the pool never has more threads than
      processors, unless there are fewer than two processors. */
  lemma AtMostProcessors(ncpus: nat, num: nat, den: nat, switchPt: nat)
    requires 0 < den && num <= den
    ensures Count(ncpus, num, den, switchPt) <= if ncpus < 2 then 2 else ncpus
  {
    if switchPt < ncpus {
      ShareAtMost(ncpus - switchPt, num, den);
    }
  }

  /** With a switch point of at least two, every pool has two threads at
      least. */
  lemma AtLeastTwo(ncpus: nat, num: nat, den: nat, switchPt: nat)
    requires den > 0 && 2 <= switchPt
    ensures Count(ncpus, num, den, switchPt) >= 2
  {
  }

  /** The count the VMs ask for, with the ratio 5/8 and the switch point 8:
      between two threads and one per processor, and beyond eight
      processors eight threads plus five for every further eight. */
  lemma DefaultCount(ncpus: nat)
    ensures 2 <= Count(ncpus, 5, 8, 8) <= if ncpus < 2 then 2 else ncpus
    ensures 8 < ncpus ==> Count(ncpus, 5, 8, 8) == 8 + (ncpus - 8) * 5 / 8
    ensures Count(16, 5, 8, 8) == 13
  {
    AtMostProcessors(ncpus, 5, 8, 8);
    AtLeastTwo(ncpus, 5, 8, 8);
  }

  /** "Two threads for a single processor" holds only up to the switch
      point: with a switch point of 0, one processor gets no thread. */
  lemma SingleProcessorBeyondSwitchPoint()
    ensures Count(1, 5, 8, 0) == 0
  {
  }
}
