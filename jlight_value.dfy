/** What the jlight VM's `Value` adds to the shared NaN-boxed encoding
    (`jlight-vm/src/runtime/value.rs`): prototypes of immediates, the
    `is_kind_of` walk and the dispatch of attribute lookups. Cells are seen
    through an abstract heap mapping each cell word to its prototype. */
module JlightValue {
  import opened Wrappers
  import opened NanBox

  /** The prototype of every cell the walk may reach, by its word. */
  type ProtoHeap = map<bv64, Option<Value>>

  /** `Value::prototype`: numbers and booleans have the state's number and
      boolean prototypes; anything else is read as a cell. */
  function ProtoOf(v: Value, numberProto: Value, boolProto: Value, heap: ProtoHeap): Option<Value>
    requires IsNumber(v) || IsBool(v) || v.raw in heap
  {
    if IsNumber(v) then Some(numberProto)
    else if IsBool(v) then Some(boolProto)
    else heap[v.raw]
  }

  predicate Known(v: Value, heap: ProtoHeap)
  {
    IsNumber(v) || IsBool(v) || v.raw in heap
  }

  /** `chain` lists the prototypes reached from `v` by repeated `prototype`
      calls, until one answers none. */
  predicate ProtoChain(v: Value, numberProto: Value, boolProto: Value, heap: ProtoHeap, chain: seq<Value>)
  {
    Known(v, heap) &&
    ProtoOf(v, numberProto, boolProto, heap) == (if chain == [] then Option.None else Some(chain[0])) &&
    (forall i :: 0 <= i < |chain| ==> Known(chain[i], heap)) &&
    (forall i :: 0 <= i < |chain| - 1 ==>
      ProtoOf(chain[i], numberProto, boolProto, heap) == Some(chain[i + 1])) &&
    (chain != [] ==> ProtoOf(chain[|chain| - 1], numberProto, boolProto, heap).None?)
  }

  /** `is_kind_of`: `other` is one of the prototypes reached from `v`
      (values compared by their words). */
  method IsKindOf(v: Value, other: Value, numberProto: Value, boolProto: Value, heap: ProtoHeap,
                  ghost chain: seq<Value>) returns (r: bool)
    requires ProtoChain(v, numberProto, boolProto, heap, chain)
    ensures r <==> other in chain
  {
    var prototype := ProtoOf(v, numberProto, boolProto, heap);
    ghost var k := 0;
    while prototype.Some?
      invariant 0 <= k <= |chain|
      invariant prototype.Some? <==> k < |chain|
      invariant prototype.Some? ==> prototype.value == chain[k]
      invariant other !in chain[..k]
      decreases |chain| - k
    {
      var proto := prototype.value;
      if Eq(proto, other) {
        return true;
      }
      assert chain[..k + 1] == chain[..k] + [proto];
      assert k < |chain| - 1 ==> ProtoOf(chain[k], numberProto, boolProto, heap) == Some(chain[k + 1]);
      prototype := ProtoOf(proto, numberProto, boolProto, heap);
      k := k + 1;
    }
    assert chain[..k] == chain;
    return false;
  }

  /** Where `lookup_attribute` looks a name up. */
  datatype Target = InCell | InBooleanPrototype | InNumberPrototype | Nowhere

  /** `lookup_attribute`'s dispatch, with the cell test passed in: cells
      first, then booleans, then numbers, and nothing for the rest. */
  function LookupTarget(v: Value, isCell: bool): Target
  {
    if isCell then InCell
    else if IsBool(v) then InBooleanPrototype
    else if IsNumber(v) then InNumberPrototype
    else Nowhere
  }

  /** With `is_cell` as written every value is looked up as a cell: the
      boolean and number branches are never taken. */
  lemma DispatchAsWrittenIsCell(v: Value)
    ensures LookupTarget(v, IsCell(v)) == InCell
  {
    IsCellAlwaysHolds(v);
  }

  /** With the corrected cell test, booleans go to the boolean prototype,
      numbers (`i32` or double) to the number prototype, null and undefined
      nowhere, and only cells to their own chain. */
  lemma DispatchCorrected(v: Value)
    ensures IsBool(v) ==> LookupTarget(v, IsCellCorrected(v)) == InBooleanPrototype
    ensures IsNumber(v) ==> LookupTarget(v, IsCellCorrected(v)) == InNumberPrototype
    ensures IsNullOrUndefined(v) ==> LookupTarget(v, IsCellCorrected(v)) == Nowhere
    ensures LookupTarget(v, IsCellCorrected(v)) == InCell <==> IsCellCorrected(v)
  {
    CellsAreNotImmediates(v);
    IsBoolMeaning(v);
    IsNullOrUndefinedMeaning(v);
  }
}
