/** Mark bytemaps (`src/heap/map.rs`): one byte per object or per line of a
    block. An object map always marks with 1; a line map marks with a value
    that toggles between 1 and 2 from one collection to the next, so that
    the marks of the previous cycle can be told apart and cleared. */
module HeapMap {
  import opened Ints

  /** `ObjectMap` or `LineMap`. */
  datatype Kind = Objects | Lines

  /** The bytes `is_empty` reads at once: one `usize` word. */
  const WORD_BYTES: nat := 8

  /** The number of non-zero entries. */
  function Count(s: seq<u8>): (n: nat)
    ensures n <= |s|
  {
    if s == [] then 0 else (if s[0] > 0 then 1 else 0) + Count(s[1..])
  }

  lemma {:induction false} CountSnoc(s: seq<u8>, x: u8)
    ensures Count(s + [x]) == Count(s) + if x > 0 then 1 else 0
    decreases |s|
  {
    if s == [] {
      assert [x][1..] == [];
    } else {
      assert (s + [x])[1..] == s[1..] + [x];
      CountSnoc(s[1..], x);
    }
  }

  /** No entry is counted exactly when every entry is zero. */
  lemma {:induction false} CountZeroIffClear(s: seq<u8>)
    ensures Count(s) == 0 <==> forall i :: 0 <= i < |s| ==> s[i] == 0
    decreases |s|
  {
    if s != [] {
      CountZeroIffClear(s[1..]);
      assert forall i :: 1 <= i < |s| ==> s[i] == s[1..][i - 1];
    }
  }

  /** A run of bytes read as one little-endian word. */
  function Word(s: seq<u8>): nat
  {
    if s == [] then 0 else s[0] + TWO_8 * Word(s[1..])
  }

  /** A word is positive exactly when one of its bytes is. */
  lemma {:induction false} WordPositive(s: seq<u8>)
    ensures Word(s) > 0 <==> exists i :: 0 <= i < |s| && s[i] > 0
    decreases |s|
  {
    if s != [] {
      WordPositive(s[1..]);
      if exists i :: 0 <= i < |s[1..]| && s[1..][i] > 0 {
        var i :| 0 <= i < |s[1..]| && s[1..][i] > 0;
        assert s[i + 1] > 0;
      }
      if exists i :: 0 <= i < |s| && s[i] > 0 {
        var i :| 0 <= i < |s| && s[i] > 0;
        if i > 0 {
          assert s[1..][i - 1] > 0;
        }
      }
    }
  }

  /** The toggle `swap_mark_value` applies. */
  function NextMarkValue(v: u8): (r: u8)
    ensures v == 1 ==> r == 2
    ensures v != 1 ==> r == 1
  {
    if v == 1 then 2 else 1
  }

  /** Toggling twice gives the mark value back. */
  lemma SwapTwice(v: u8)
    requires v == 1 || v == 2
    ensures NextMarkValue(NextMarkValue(v)) == v
  {
  }

  class Bytemap {
    const kind: Kind
    const values: array<u8>
    /** `LineMap::mark_value`; an object map never changes it. */
    var markValue: u8

    /** The mark value is 1 or 2, and always 1 in an object map. */
    ghost predicate Valid()
      reads this
    {
      (markValue == 1 || markValue == 2) && (kind == Objects ==> markValue == 1)
    }

    /** `ObjectMap::new`: `n` zero entries (`n` is `OBJECTS_PER_BLOCK`). */
    constructor ObjectMap(n: nat)
      ensures Valid() && kind == Objects && fresh(values)
      ensures values[..] == seq(n, _ => 0)
    {
      kind := Objects;
      values := new u8[n](_ => 0);
      markValue := 1;
    }

    /** `LineMap::new`: `n` zero entries (`n` is `LINES_PER_BLOCK`) and the
        mark value 1. */
    constructor LineMap(n: nat)
      ensures Valid() && kind == Lines && fresh(values) && markValue == 1
      ensures values[..] == seq(n, _ => 0)
    {
      kind := Lines;
      values := new u8[n](_ => 0);
      markValue := 1;
    }

    /** `mark_value`: 1 for an object map, the current value for a line
        map. */
    function MarkValue(): (r: u8)
      reads this
      ensures kind == Objects ==> r == 1
      ensures kind == Lines ==> r == markValue
    {
      if kind == Objects then 1 else markValue
    }

    /** `is_set(index)`: the entry is non-zero. */
    predicate IsSet(index: nat)
      requires index < values.Length
      reads values
    {
      values[index] > 0
    }

    /** `set(index)`: the entry takes the mark value and is then set. */
    method Set(index: nat)
      requires Valid() && index < values.Length
      modifies values
      ensures values[..] == old(values[..])[index := MarkValue()]
      ensures IsSet(index)
    {
      values[index] := MarkValue();
    }

    /** `unset(index)`: the entry becomes zero and is then not set. */
    method Unset(index: nat)
      requires index < values.Length
      modifies values
      ensures values[..] == old(values[..])[index := 0]
      ensures !IsSet(index)
    {
      values[index] := 0;
    }

    /** `is_empty`: reads the map one word at a time and reports whether
        every entry is zero. The map must be a whole number of words. */
    method IsEmpty() returns (empty: bool)
      requires values.Length % WORD_BYTES == 0
      ensures empty <==> forall i :: 0 <= i < values.Length ==> values[i] == 0
    {
      var offset := 0;
      while offset < values.Length
        invariant offset <= values.Length && offset % WORD_BYTES == 0
        invariant forall i :: 0 <= i < offset ==> values[i] == 0
      {
        var value := Word(values[offset..offset + WORD_BYTES]);
        WordPositive(values[offset..offset + WORD_BYTES]);
        if value > 0 {
          var k :| 0 <= k < WORD_BYTES && values[offset..offset + WORD_BYTES][k] > 0;
          assert values[offset + k] > 0;
          return false;
        }
        assert forall i :: offset <= i < offset + WORD_BYTES ==>
          values[i] == values[offset..offset + WORD_BYTES][i - offset];
        offset := offset + WORD_BYTES;
      }
      return true;
    }

    /** `len`: the number of set entries. */
    method Len() returns (amount: nat)
      ensures amount == Count(values[..])
    {
      amount := 0;
      for i := 0 to values.Length
        invariant amount == Count(values[..i])
      {
        assert values[..i + 1] == values[..i] + [values[i]];
        CountSnoc(values[..i], values[i]);
        if values[i] > 0 {
          amount := amount + 1;
        }
      }
      assert values[..values.Length] == values[..];
    }

    /** `reset`: every entry becomes zero. */
    method Reset()
      modifies values
      ensures values[..] == seq(values.Length, _ => 0)
    {
      for i := 0 to values.Length
        invariant forall j :: 0 <= j < i ==> values[j] == 0
      {
        values[i] := 0;
      }
    }

    /** `LineMap::swap_mark_value`: 1 becomes 2 and 2 becomes 1. */
    method SwapMarkValue()
      requires Valid() && kind == Lines
      modifies this`markValue
      ensures Valid() && markValue == NextMarkValue(old(markValue))
      ensures markValue != old(markValue)
    {
      if markValue == 1 {
        markValue := 2;
      } else {
        markValue := 1;
      }
    }

    /** `LineMap::reset_previous_marks`: an entry holding anything but the
        current mark value is cleared; entries of the current cycle stay. */
    method ResetPreviousMarks()
      requires kind == Lines
      modifies values
      ensures forall i :: 0 <= i < values.Length ==>
        values[i] == if old(values[i]) == markValue then markValue else 0
    {
      for i := 0 to values.Length
        invariant forall j :: 0 <= j < i ==>
          values[j] == if old(values[j]) == markValue then markValue else 0
        invariant forall j :: i <= j < values.Length ==> values[j] == old(values[j])
      {
        if values[i] != markValue {
          values[i] := 0;
        }
      }
    }
  }

  /** `is_empty` and `len` agree: a map is empty exactly when it counts no
      set entry. */
  method EmptyIffNoMarks(m: Bytemap) returns (empty: bool, amount: nat)
    requires m.values.Length % WORD_BYTES == 0
    ensures empty <==> amount == 0
  {
    empty := m.IsEmpty();
    amount := m.Len();
    CountZeroIffClear(m.values[..]);
  }

  /** After the mark value is swapped and the previous marks are reset, a
      line map holds no set entry: every mark was made with the old
      value. */
  method NewCycleClearsLines(m: Bytemap)
    requires m.Valid() && m.kind == Lines
    requires forall i :: 0 <= i < m.values.Length ==> m.values[i] == 0 || m.values[i] == m.markValue
    modifies m`markValue, m.values
    ensures forall i :: 0 <= i < m.values.Length ==> !m.IsSet(i)
  {
    m.SwapMarkValue();
    m.ResetPreviousMarks();
  }
}
