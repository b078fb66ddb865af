/** Sequence helpers shared by the register files and lists of the three
    VMs: exchanging two slots, keeping the elements that pass a test (as
    Rust's `retain` and `filter` do), and reversing. */
module RegisterFile {
  /** `regs` with the contents of slots `a` and `b` exchanged. */
  function Swapped<T>(regs: seq<T>, a: nat, b: nat): (r: seq<T>)
    requires a < |regs| && b < |regs|
    ensures |r| == |regs|
  {
    regs[a := regs[b]][b := regs[a]]
  }

  /** A swap moves each of the two values to the other slot, touches
      nothing else, and undoes itself. */
  lemma SwappedMeaning<T>(regs: seq<T>, a: nat, b: nat)
    requires a < |regs| && b < |regs|
    ensures Swapped(regs, a, b)[a] == regs[b] && Swapped(regs, a, b)[b] == regs[a]
    ensures forall i :: 0 <= i < |regs| && i != a && i != b ==> Swapped(regs, a, b)[i] == regs[i]
    ensures Swapped(Swapped(regs, a, b), a, b) == regs
  {
    var s := Swapped(regs, a, b);
    assert Swapped(s, a, b) == regs by {
      forall i | 0 <= i < |regs| ensures Swapped(s, a, b)[i] == regs[i] {
      }
    }
  }

  /** The elements of `s` that pass `keep`, in their order. */
  function Filter<T>(s: seq<T>, keep: T -> bool): (r: seq<T>)
    ensures |r| <= |s|
  {
    if s == [] then []
    else if keep(s[0]) then [s[0]] + Filter(s[1..], keep)
    else Filter(s[1..], keep)
  }

  /** Exactly the elements that pass the test survive. */
  lemma {:induction false} FilterMembers<T>(s: seq<T>, keep: T -> bool)
    ensures forall x :: x in Filter(s, keep) <==> x in s && keep(x)
    ensures forall i :: 0 <= i < |Filter(s, keep)| ==> keep(Filter(s, keep)[i])
  {
    if s != [] {
      FilterMembers(s[1..], keep);
      assert forall x :: x in s <==> x == s[0] || x in s[1..];
    }
  }

  /** Filtering a concatenation filters each part. */
  lemma {:induction false} FilterAppend<T>(s: seq<T>, t: seq<T>, keep: T -> bool)
    ensures Filter(s + t, keep) == Filter(s, keep) + Filter(t, keep)
  {
    if s == [] {
      assert s + t == t;
    } else {
      assert (s + t)[0] == s[0] && (s + t)[1..] == s[1..] + t;
      FilterAppend(s[1..], t, keep);
    }
  }

  /** Filtering a sequence whose elements all pass keeps it whole. */
  lemma {:induction false} FilterAllPass<T>(s: seq<T>, keep: T -> bool)
    requires forall i :: 0 <= i < |s| ==> keep(s[i])
    ensures Filter(s, keep) == s
  {
    if s != [] {
      FilterAllPass(s[1..], keep);
    }
  }

  /** `s` back to front, as popping every element off the back of one list
      and pushing it on the back of another leaves them. */
  function Reversed<T>(s: seq<T>): (r: seq<T>)
    ensures |r| == |s|
    ensures forall j :: 0 <= j < |s| ==> r[j] == s[|s| - 1 - j]
  {
    if s == [] then [] else [s[|s| - 1]] + Reversed(s[..|s| - 1])
  }

  /** Moving one more element from the back appends it. */
  lemma ReversedCons<T>(x: T, rest: seq<T>)
    ensures Reversed([x] + rest) == Reversed(rest) + [x]
  {
    var l := [x] + rest;
    assert forall j :: 0 <= j < |rest| ==> Reversed(l)[j] == rest[|rest| - 1 - j];
  }

  /** The first element ends up last. */
  lemma ReversedFirst<T>(s: seq<T>)
    requires s != []
    ensures Reversed(s) == Reversed(s[1..]) + [s[0]]
  {
    assert s == [s[0]] + s[1..];
    ReversedCons(s[0], s[1..]);
  }
}
