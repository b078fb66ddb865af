/** Heap cells of the `waffle` VM (`vm/src/runtime/cell.rs`). A cell holds a
    value, an optional prototype pointer, a lazily allocated attribute map
    whose pointer carries the mark bits in its tag (bit 0: marked, bit 1:
    soft-marked), a generation and a colour. A `CellPointer` carries its own
    tag, bit 0 meaning "permanent". */
module WaffleCell {
  import opened Wrappers
  import NanBox

  type Value = NanBox.Value

  const MIN_OLD_SPACE_GENERATION: nat := 5
  const CELL_WHITE: nat := 0
  const CELL_GREY: nat := 1
  const CELL_BLACK: nat := 2

  datatype CellValue =
    | None
    | Number(bits: bv64)
    | Bool(b: bool)
    | String(s: string)
    | Array(elems: seq<Value>)
    | ByteArray(bytes: seq<bv8>)
    | Function(f: FunctionValue)
    | Module(id: nat)
    | Process(pid: nat)
    | Duration(millis: nat)
    | File(fd: nat)

  /** A function: its name, captured upvalues, argument count, whether it
      is native, and the number of basic blocks of its code. */
  datatype FunctionValue = FunctionValue(name: string, upvalues: seq<Value>, argc: int,
                                         native: bool, codeLen: nat)

  /** A tagged pointer to a cell: the address (null when `cell` is null) and
      the permanent bit of its tag. */
  datatype CellPointer = CellPointer(cell: Cell?, permanent: bool)

  /** `PartialEq for CellPointer`: the untagged addresses are compared. */
  predicate Eq(a: CellPointer, b: CellPointer) { a.cell == b.cell }

  /** `set_permanent` and `is_permanent`. */
  function SetPermanent(p: CellPointer): (r: CellPointer)
    ensures r.permanent
  {
    p.(permanent := true)
  }

  /** Equality ignores the tag: a pointer equals its permanent copy, and
      equality is an equivalence. */
  lemma EqIgnoresTag(a: CellPointer, b: CellPointer, c: CellPointer)
    ensures Eq(a, SetPermanent(a)) && Eq(SetPermanent(a), a)
    ensures Eq(a, b) <==> Eq(SetPermanent(a), b)
    ensures Eq(a, b) ==> Eq(b, a)
    ensures Eq(a, b) && Eq(b, c) ==> Eq(a, c)
  {
  }

  // ---------------------------------------------------------------------------
  // Tag bits of the attribute-map pointer

  /** `MARK_BIT` (bit 0) and the soft-mark bit (bit 1). */
  const MARK: bv64 := 1
  const SOFT_MARK: bv64 := 2

  /** Setting or clearing one of the two bits makes it read back as set or
      clear and leaves the other bit as it was. */
  lemma MaskFacts(tag: bv64)
    ensures (tag | MARK) & MARK != 0 && (tag | MARK) & SOFT_MARK == tag & SOFT_MARK
    ensures (tag | SOFT_MARK) & SOFT_MARK != 0 && (tag | SOFT_MARK) & MARK == tag & MARK
    ensures (tag & !MARK) & MARK == 0 && (tag & !MARK) & SOFT_MARK == tag & SOFT_MARK
    ensures (tag & !SOFT_MARK) & SOFT_MARK == 0 && (tag & !SOFT_MARK) & MARK == tag & MARK
  {
  }

  /** `set_bit`/`unset_bit` of `mark` and `soft_mark`: the new tag with
      `mask` set when `b` holds and cleared otherwise. */
  function WithBit(tag: bv64, mask: bv64, b: bool): (r: bv64)
    requires mask == MARK || mask == SOFT_MARK
    ensures (r & mask != 0) == b
    ensures mask == MARK ==> r & SOFT_MARK == tag & SOFT_MARK
    ensures mask == SOFT_MARK ==> r & MARK == tag & MARK
  {
    MaskFacts(tag);
    if b then tag | mask else tag & !mask
  }

  // ---------------------------------------------------------------------------
  // Generations

  /** One `increment_generation`: the generation grows while it is below
      `MIN_OLD_SPACE_GENERATION`. */
  function NextGeneration(g: nat): nat
  {
    if g < MIN_OLD_SPACE_GENERATION then g + 1 else g
  }

  function Generations(g: nat, n: nat): nat
  {
    if n == 0 then g else NextGeneration(Generations(g, n - 1))
  }

  /** From a young generation, `n` increments reach `g + n` or stop at
      `MIN_OLD_SPACE_GENERATION`, whichever comes first; an old generation
      never moves. */
  lemma {:induction false} GenerationSaturates(g: nat, n: nat)
    ensures g <= MIN_OLD_SPACE_GENERATION ==>
      Generations(g, n) == if g + n < MIN_OLD_SPACE_GENERATION then g + n else MIN_OLD_SPACE_GENERATION
    ensures g > MIN_OLD_SPACE_GENERATION ==> Generations(g, n) == g
  {
    if n > 0 {
      GenerationSaturates(g, n - 1);
    }
  }

  // ---------------------------------------------------------------------------
  // Cells

  class Cell {
    var value: CellValue
    var prototype: Option<CellPointer>
    var attributes: Option<map<string, Value>>
    /** The tag bits of the attribute-map pointer. */
    var attrTag: bv64
    var generation: nat
    var color: nat

    /** `Cell::new` (no prototype) and `Cell::with_prototype`. */
    constructor (value: CellValue, prototype: Option<CellPointer>)
      ensures this.value == value && this.prototype == prototype
      ensures attributes.None? && attrTag == 0
      ensures generation == 0 && color == CELL_WHITE
    {
      this.value := value;
      this.prototype := prototype;
      attributes := Option.None;
      attrTag := 0;
      generation := 0;
      color := CELL_WHITE;
    }

    function LookupInSelf(name: string): (r: Option<Value>)
      reads this
      ensures r.Some? <==> attributes.Some? && name in attributes.value
      ensures r.Some? ==> r.value == attributes.value[name]
    {
      if attributes.Some? && name in attributes.value then Some(attributes.value[name]) else Option.None
    }

    /** `add_attribute`: allocates the map if there is none, then inserts.
        Allocating the map stores a freshly tagged pointer, so the mark and
        soft-mark bits are cleared then; an existing map keeps its tag. */
    method AddAttribute(name: string, v: Value)
      modifies this
      ensures attributes == Some((if old(attributes).Some? then old(attributes).value else map[])[name := v])
      ensures LookupInSelf(name) == Some(v)
      ensures old(attributes).None? ==> attrTag == 0 && !IsMarked() && !IsSoftMarked()
      ensures old(attributes).Some? ==> attrTag == old(attrTag)
      ensures prototype == old(prototype) && value == old(value)
      ensures generation == old(generation) && color == old(color)
    {
      if attributes.None? {
        attributes := Some(map[]);
        attrTag := 0;
      }
      attributes := Some(attributes.value[name := v]);
    }

    /** `remove_attribute`: the removed value, or none when there is no map
        or no such entry. */
    method RemoveAttribute(name: string) returns (r: Option<Value>)
      modifies this
      ensures r == old(LookupInSelf(name)) && LookupInSelf(name).None?
      ensures old(attributes).None? ==> attributes.None?
      ensures old(attributes).Some? ==> attributes == Some(old(attributes).value - {name})
      ensures attrTag == old(attrTag) && prototype == old(prototype) && value == old(value)
      ensures generation == old(generation) && color == old(color)
    {
      if attributes.None? {
        return Option.None;
      }
      var m := attributes.value;
      r := if name in m then Some(m[name]) else Option.None;
      attributes := Some(m - {name});
    }

    /** `take_prototype`. */
    method TakePrototype() returns (r: Option<CellPointer>)
      modifies this
      ensures r == old(prototype) && prototype.None?
      ensures attributes == old(attributes) && attrTag == old(attrTag) && value == old(value)
      ensures generation == old(generation) && color == old(color)
    {
      r := prototype;
      prototype := Option.None;
    }

    /** `CellPointer::increment_generation`. */
    method IncrementGeneration()
      modifies this
      ensures generation == NextGeneration(old(generation))
      ensures value == old(value) && prototype == old(prototype) && attributes == old(attributes)
      ensures attrTag == old(attrTag) && color == old(color)
    {
      if generation < MIN_OLD_SPACE_GENERATION {
        generation := generation + 1;
      }
    }

    /** `CellPointer::set_color`: stores the colour, returns the previous
        one. */
    method SetColor(c: nat) returns (previous: nat)
      modifies this
      ensures previous == old(color) && color == c
      ensures value == old(value) && prototype == old(prototype) && attributes == old(attributes)
      ensures attrTag == old(attrTag) && generation == old(generation)
    {
      previous := color;
      color := c;
    }

    predicate IsMarked()
      reads this
    {
      attrTag & MARK != 0
    }

    predicate IsSoftMarked()
      reads this
    {
      attrTag & SOFT_MARK != 0
    }

    /** `CellPointer::mark`: sets or clears bit 0 of the attribute tag. */
    method Mark(b: bool)
      modifies this
      ensures attrTag == WithBit(old(attrTag), MARK, b)
      ensures IsMarked() == b && IsSoftMarked() == old(IsSoftMarked())
      ensures value == old(value) && prototype == old(prototype) && attributes == old(attributes)
      ensures generation == old(generation) && color == old(color)
    {
      attrTag := WithBit(attrTag, MARK, b);
    }

    /** `CellPointer::soft_mark`: the same for bit 1. */
    method SoftMark(b: bool)
      modifies this
      ensures attrTag == WithBit(old(attrTag), SOFT_MARK, b)
      ensures IsSoftMarked() == b && IsMarked() == old(IsMarked())
      ensures value == old(value) && prototype == old(prototype) && attributes == old(attributes)
      ensures generation == old(generation) && color == old(color)
    {
      attrTag := WithBit(attrTag, SOFT_MARK, b);
    }
  }

  /** `CellPointer::is_false`: a null pointer and `Bool(false)` are false; the
      tagged-number branch is unreachable, as `is_tagged_number` is constantly
      false. */
  predicate IsFalse(p: CellPointer)
    reads p.cell
  {
    if p.cell == null then true
    else match p.cell.value
      case Bool(b) => !b
      case _ => false
  }

  /** Exactly the null pointer and the cells holding `false` are false. */
  lemma IsFalseCases(p: CellPointer)
    ensures IsFalse(p) <==> p.cell == null || p.cell.value == Bool(false)
  {
  }

  // ---------------------------------------------------------------------------
  // Prototype chains

  function Cells(chain: seq<Cell>): set<Cell>
  {
    set i | 0 <= i < |chain| :: chain[i]
  }

  /** Where a cell's chain continues: its prototype's cell, unless there is
      no prototype or the prototype is a null pointer (where
      `lookup_attribute` stops). */
  function Parent(c: Cell): Cell?
    reads c
  {
    if c.prototype.None? then null else c.prototype.value.cell
  }

  ghost predicate CellChain(chain: seq<Cell>)
    reads Cells(chain)
  {
    |chain| >= 1 &&
    (forall i :: 0 <= i < |chain| - 1 ==> Parent(chain[i]) == chain[i + 1]) &&
    Parent(chain[|chain| - 1]) == null
  }

  /** The only cell of a chain with no parent is its last one. */
  lemma ChainEnds(chain: seq<Cell>, k: nat)
    requires CellChain(chain) && k < |chain|
    ensures Parent(chain[k]) == null <==> k == |chain| - 1
  {
    if k < |chain| - 1 {
      assert Parent(chain[k]) == chain[k + 1];
    }
  }

  function LookupIn(chain: seq<Cell>, name: string): Option<Value>
    reads Cells(chain)
    decreases |chain|
  {
    if chain == [] then Option.None
    else if chain[0].LookupInSelf(name).Some? then chain[0].LookupInSelf(name)
    else LookupIn(chain[1..], name)
  }

  /** The lookup finds an attribute exactly when some cell on the chain has
      it, and then it is that of the first such cell. */
  lemma {:induction false} LookupInMeaning(chain: seq<Cell>, name: string)
    ensures LookupIn(chain, name).None? <==>
      forall i :: 0 <= i < |chain| ==> chain[i].LookupInSelf(name).None?
    ensures forall i :: (0 <= i < |chain| && chain[i].LookupInSelf(name).Some? &&
      (forall j :: 0 <= j < i ==> chain[j].LookupInSelf(name).None?)) ==>
        LookupIn(chain, name) == chain[i].LookupInSelf(name)
    decreases |chain|
  {
    if chain != [] {
      LookupInMeaning(chain[1..], name);
      forall i | 0 < i < |chain| ensures chain[i] == chain[1..][i - 1] { }
    }
  }

  /** `Cell::lookup_attribute`. */
  method LookupAttribute(c: Cell, name: string, ghost chain: seq<Cell>) returns (r: Option<Value>)
    requires CellChain(chain) && chain[0] == c
    ensures r == LookupIn(chain, name)
  {
    r := c.LookupInSelf(name);
    if r.Some? {
      return;
    }
    if c.prototype.Some? {
      var optParent := c.prototype;
      ghost var k := 1;
      while optParent.Some?
        invariant 1 <= k <= |chain|
        invariant optParent.Some? ==> optParent.value.cell == (if k < |chain| then chain[k] else null)
        invariant optParent.None? ==> k == |chain|
        invariant LookupIn(chain, name) == LookupIn(chain[k..], name)
        decreases |chain| - k
      {
        var parent := optParent.value;
        if parent.cell == null {
          break;
        }
        assert chain[k..][0] == parent.cell && chain[k..][1..] == chain[k + 1..];
        r := parent.cell.LookupInSelf(name);
        if r.Some? {
          return;
        }
        optParent := parent.cell.prototype;
        k := k + 1;
      }
      assert chain[k..] == [];
    } else {
      ChainEnds(chain, 0);
    }
    return Option.None;
  }

  /** `CellPointer::lookup_attribute`: a null pointer panics in `get`. */
  method PointerLookupAttribute(p: CellPointer, name: string, ghost chain: seq<Cell>)
    returns (r: Result<Option<Value>>)
    requires p.cell != null ==> CellChain(chain) && chain[0] == p.cell
    ensures r.Failure? <==> p.cell == null
    ensures r.Success? ==> r.value == LookupIn(chain, name)
  {
    if p.cell == null {
      return Failure("called `Option::unwrap()` on a `None` value");
    }
    var v := LookupAttribute(p.cell, name, chain);
    return Success(v);
  }
}
