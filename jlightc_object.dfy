/** Objects and object pointers of the `jlightc` VM (`src/object.rs`). A
    pointer is null, a tagged integer (bit 0 set, the value shifted left by
    one in the rest of the word) or a reference to a heap object; attribute
    names are themselves pointers. */
module JlightcObject {
  import opened Wrappers
  import opened Ints
  import opened JlightcObjectValue

  // ---------------------------------------------------------------------------
  // Tagged integers

  /** `MIN_INTEGER` and `MAX_INTEGER`: `i64::MIN >> 1` and `i64::MAX >> 1`. */
  const MIN_INTEGER: int := -0x4000_0000_0000_0000
  const MAX_INTEGER: int := 0x3FFF_FFFF_FFFF_FFFF

  /** The raw word of `ObjectPointer::integer(v)`: `v << 1` in 64 bits, with
      the integer bit set. */
  function IntegerRaw(v: i64): (raw: u64)
    ensures raw % 2 == 1
  {
    (2 * v) % TWO_64 + 1
  }

  /** The raw word read as an `i64`. */
  function Signed(raw: u64): i64
  {
    if raw >= TWO_63 then raw - TWO_64 else raw
  }

  /** `integer_value` of a tagged integer: an arithmetic shift right by one
      of the signed word (Dafny's division by 2 rounds down, as the shift
      does). */
  function IntegerValueOf(raw: u64): (v: int)
    ensures MIN_INTEGER <= v <= MAX_INTEGER
  {
    Signed(raw) / 2
  }

  /** `integer_too_large`. */
  predicate IntegerTooLarge(v: i64)
  {
    v < MIN_INTEGER || v > MAX_INTEGER
  }

  /** `unsigned_integer_too_large`. */
  predicate UnsignedIntegerTooLarge(u: u64)
  {
    u > MAX_INTEGER
  }

  /** A tagged integer gives its value back exactly when the value is not too
      large; a too-large value comes back shifted by 2^63 (the shift lost
      its top bit). */
  lemma {:induction false} IntegerRoundTrip(v: i64)
    ensures IntegerValueOf(IntegerRaw(v)) == v <==> !IntegerTooLarge(v)
    ensures v > MAX_INTEGER ==> IntegerValueOf(IntegerRaw(v)) == v - TWO_63
    ensures v < MIN_INTEGER ==> IntegerValueOf(IntegerRaw(v)) == v + TWO_63
  {
    var raw := IntegerRaw(v);
    if v >= TWO_63 / 2 {
      assert raw == 2 * v + 1;
      assert Signed(raw) == 2 * v + 1 - TWO_64;
      assert Signed(raw) == 2 * (v - TWO_63) + 1;
    } else if v >= 0 {
      assert raw == 2 * v + 1;
    } else if v >= MIN_INTEGER {
      assert (2 * v) % TWO_64 == 2 * v + TWO_64;
      assert Signed(raw) == 2 * v + 1;
    } else {
      assert (2 * v) % TWO_64 == 2 * v + TWO_64;
      assert Signed(raw) == 2 * (v + TWO_63) + 1;
    }
  }

  /** An unsigned value is too large exactly when it is too large as a
      signed one, for the values both types hold. */
  lemma UnsignedAgrees(u: u64)
    requires u < TWO_63
    ensures UnsignedIntegerTooLarge(u) <==> IntegerTooLarge(u)
  {
  }

  /** The narrow getters (`def_integer_value_getter!`): the integer value of
      the pointer when it lies within `[lo, hi]`, an error otherwise (and
      the error of `integer_value` when there is no integer). */
  function NarrowInteger(value: Result<int>, lo: int, hi: int, typeName: string): (r: Result<int>)
  {
    var v :- value;
    if v < lo || v > hi then Failure(SignedDecimal(v) + " can not be converted to a " + typeName)
    else Success(v)
  }

  function SignedDecimal(v: int): string
  {
    if v < 0 then "-" + Decimal(-v) else Decimal(v)
  }

  /** A narrow getter fails exactly when there is no integer or the integer
      lies outside the target type, and otherwise returns it unchanged. */
  lemma NarrowIntegerMeaning(value: Result<int>, lo: int, hi: int, typeName: string)
    ensures NarrowInteger(value, lo, hi, typeName).Success? <==>
      value.Success? && lo <= value.value <= hi
    ensures NarrowInteger(value, lo, hi, typeName).Success? ==>
      NarrowInteger(value, lo, hi, typeName).value == value.value
  {
  }

  // ---------------------------------------------------------------------------
  // Pointers and objects

  datatype Pointer = Null | TaggedInt(raw: u64) | Ref(obj: Object)

  /** `ObjectPointer::integer`. */
  function Integer(v: i64): (p: Pointer)
    ensures p.TaggedInt?
  {
    TaggedInt(IntegerRaw(v))
  }

  /** `is_null`: the raw word is zero, which only the null pointer has (a
      tagged integer has bit 0 set). */
  predicate IsNull(p: Pointer) { p.Null? }

  lemma IntegersAreNotNull(v: i64)
    ensures !IsNull(Integer(v)) && Integer(v).raw != 0
  {
  }

  /** An object put in a remembered set before it has attributes: as
      written, its first attribute clears the remembered bit, so the write
      barrier would remember it a second time; the corrected insertion
      keeps it remembered. */
  method FirstAttributeForgetsRemembered(name: Pointer, v: Pointer) returns (o: Object, p: Object)
    ensures o.remembered == false && o.LookupInSelf(name) == Some(v)
    ensures p.remembered == true && p.LookupInSelf(name) == Some(v)
  {
    o := new Object(ObjectValue.None, Null);
    o.MarkAsRemembered();
    o.AddAttribute(name, v);
    p := new Object(ObjectValue.None, Null);
    p.MarkAsRemembered();
    p.AddAttributeCorrected(name, v);
  }

  class Object {
    var prototype: Pointer
    var attributes: Option<map<Pointer, Pointer>>
    var value: ObjectValue
    /** `REMEMBERED_BIT` of the tagged attributes pointer: the object is in
        a remembered set. */
    var remembered: bool

    /** `Object::with_prototype` (`Object::new` passes a null prototype). */
    constructor (value: ObjectValue, prototype: Pointer)
      ensures this.value == value && this.prototype == prototype && attributes.None?
      ensures !remembered
    {
      this.value := value;
      this.prototype := prototype;
      attributes := Option.None;
      remembered := false;
    }

    /** `mark_as_remembered`: only the remembered bit changes. */
    method MarkAsRemembered()
      modifies this`remembered
      ensures remembered
    {
      remembered := true;
    }

    function Prototype(): (r: Option<Pointer>)
      reads this
      ensures r.None? <==> prototype.Null?
      ensures r.Some? ==> r.value == prototype
    {
      if prototype.Null? then Option.None else Some(prototype)
    }

    /** `take_prototype`: the prototype moves out and null is left behind. */
    method TakePrototype() returns (r: Option<Pointer>)
      modifies this
      ensures r == old(Prototype()) && prototype.Null?
      ensures attributes == old(attributes) && value == old(value)
    {
      if prototype.Null? {
        return Option.None;
      }
      r := Some(prototype);
      prototype := Null;
    }

    function LookupInSelf(name: Pointer): (r: Option<Pointer>)
      reads this
      ensures r.Some? <==> attributes.Some? && name in attributes.value
      ensures r.Some? ==> r.value == attributes.value[name]
    {
      if attributes.Some? && name in attributes.value then Some(attributes.value[name]) else Option.None
    }

    /** `add_attribute`: allocates the map if there is none, then inserts.
        The remembered bit is a tag bit of the attribute-map pointer, and
        allocating the map stores a freshly tagged pointer, so the bit is
        cleared then; an existing map keeps it. */
    method AddAttribute(name: Pointer, v: Pointer)
      modifies this
      ensures attributes.Some?
      ensures attributes.value == (if old(attributes).Some? then old(attributes).value else map[])[name := v]
      ensures LookupInSelf(name) == Some(v)
      ensures old(attributes).None? ==> !remembered
      ensures old(attributes).Some? ==> remembered == old(remembered)
      ensures prototype == old(prototype) && value == old(value)
    {
      if attributes.None? {
        attributes := Some(map[]);
        remembered := false;
      }
      attributes := Some(attributes.value[name := v]);
    }

    /** `add_attribute` as the remembered bit is evidently meant to be
        treated, the way `take` inherits it: the map is allocated if there
        is none and the entry inserted, and the object stays remembered
        exactly when it was. */
    method AddAttributeCorrected(name: Pointer, v: Pointer)
      modifies this
      ensures attributes.Some?
      ensures attributes.value == (if old(attributes).Some? then old(attributes).value else map[])[name := v]
      ensures LookupInSelf(name) == Some(v)
      ensures remembered == old(remembered)
      ensures prototype == old(prototype) && value == old(value)
    {
      var m := if attributes.Some? then attributes.value else map[];
      attributes := Some(m[name := v]);
    }

    /** `remove_attribute`: the removed entry, or none when the object has
        no map or no such entry. */
    method RemoveAttribute(name: Pointer) returns (r: Option<Pointer>)
      modifies this
      ensures r == old(LookupInSelf(name))
      ensures LookupInSelf(name).None?
      ensures old(attributes).None? ==> attributes.None?
      ensures old(attributes).Some? ==> attributes == Some(old(attributes).value - {name})
      ensures prototype == old(prototype) && value == old(value)
    {
      if attributes.None? {
        return Option.None;
      }
      var m := attributes.value;
      r := if name in m then Some(m[name]) else Option.None;
      attributes := Some(m - {name});
    }
  }

  /** The tagged-integer answers of the pointer queries: a tagged integer is a
      number, not a string nor a big integer, and has no attributes. */
  function IsNumberPtr(p: Pointer): bool
    requires !p.Null?
    reads if p.Ref? then {p.obj} else {}
  {
    if p.TaggedInt? then true else IsNumber(p.obj.value)
  }

  function IsStringPtr(p: Pointer): bool
    requires !p.Null?
    reads if p.Ref? then {p.obj} else {}
  {
    if p.TaggedInt? then false else IsString(p.obj.value)
  }

  function IsBigintPtr(p: Pointer): bool
    requires !p.Null?
    reads if p.Ref? then {p.obj} else {}
  {
    if p.TaggedInt? then false else IsBigint(p.obj.value)
  }

  function AttributeNames(p: Pointer): set<Pointer>
    requires !p.Null?
    reads if p.Ref? then {p.obj} else {}
  {
    if p.TaggedInt? || p.obj.attributes.None? then {} else p.obj.attributes.value.Keys
  }

  lemma TaggedIntegerQueries(v: i64)
    ensures IsNumberPtr(Integer(v)) && !IsStringPtr(Integer(v)) && !IsBigintPtr(Integer(v))
    ensures AttributeNames(Integer(v)) == {}
  {
  }

  // ---------------------------------------------------------------------------
  // Prototype chains

  function Objects(chain: seq<Object>): set<Object>
  {
    set i | 0 <= i < |chain| :: chain[i]
  }

  /** `chain` is an object followed by its ancestors, ending with an object
      whose prototype is null. */
  ghost predicate ObjChain(chain: seq<Object>)
    reads Objects(chain)
  {
    |chain| >= 1 &&
    (forall i :: 0 <= i < |chain| - 1 ==> chain[i].prototype == Ref(chain[i + 1])) &&
    chain[|chain| - 1].prototype.Null?
  }

  function LookupIn(chain: seq<Object>, name: Pointer): (r: Option<Pointer>)
    reads Objects(chain)
    decreases |chain|
  {
    if chain == [] then Option.None
    else if chain[0].LookupInSelf(name).Some? then chain[0].LookupInSelf(name)
    else LookupIn(chain[1..], name)
  }

  /** The lookup finds an attribute exactly when some object on the chain
      has it, and then it is that of the first such object. */
  lemma {:induction false} LookupInMeaning(chain: seq<Object>, name: Pointer)
    ensures LookupIn(chain, name).None? <==>
      forall i :: 0 <= i < |chain| ==> chain[i].LookupInSelf(name).None?
    ensures forall i :: (0 <= i < |chain| && chain[i].LookupInSelf(name).Some? &&
      (forall j :: 0 <= j < i ==> chain[j].LookupInSelf(name).None?)) ==>
        LookupIn(chain, name) == chain[i].LookupInSelf(name)
    decreases |chain|
  {
    if chain != [] {
      LookupInMeaning(chain[1..], name);
      forall i | 0 < i < |chain| ensures chain[i] == chain[1..][i - 1] { }
    }
  }

  /** `Object::lookup_attribute`: the object's own attribute, else the first
      ancestor's. */
  method LookupAttribute(o: Object, name: Pointer, ghost chain: seq<Object>) returns (r: Option<Pointer>)
    requires ObjChain(chain) && chain[0] == o
    ensures r == LookupIn(chain, name)
  {
    r := o.LookupInSelf(name);
    if r.Some? {
      return;
    }
    var parent := o.Prototype();
    ghost var k := 1;
    while parent.Some?
      invariant 1 <= k <= |chain|
      invariant parent.Some? <==> k < |chain|
      invariant parent.Some? ==> parent.value == Ref(chain[k])
      invariant LookupIn(chain, name) == LookupIn(chain[k..], name)
      decreases |chain| - k
    {
      var p := parent.value.obj;
      assert chain[k..][0] == p && chain[k..][1..] == chain[k + 1..];
      r := p.LookupInSelf(name);
      if r.Some? {
        return;
      }
      parent := p.Prototype();
      k := k + 1;
    }
    assert chain[k..] == [];
    return Option.None;
  }

  /** `ObjectPointer::lookup_attribute`: a tagged integer looks the name up
      from the number prototype, an object from itself; null panics. */
  method PointerLookupAttribute(p: Pointer, numberProto: Object, name: Pointer, ghost chain: seq<Object>)
    returns (r: Result<Option<Pointer>>)
    requires !p.Null? ==> ObjChain(chain) && chain[0] == (if p.TaggedInt? then numberProto else p.obj)
    ensures r.Failure? <==> p.Null?
    ensures r.Success? ==> r.value == LookupIn(chain, name)
  {
    match p {
      case Null =>
        return Failure("ObjectPointer::get() called on a NULL pointer");
      case TaggedInt(_) =>
        var v := LookupAttribute(numberProto, name, chain);
        return Success(v);
      case Ref(o) =>
        var v := LookupAttribute(o, name, chain);
        return Success(v);
    }
  }

  function Targets(ps: seq<Pointer>): set<Object>
  {
    set q | q in ps && q.Ref? :: q.obj
  }

  /** `ObjectPointer::prototype` of a non-null pointer. */
  function ProtoOf(p: Pointer, numberProto: Pointer): Option<Pointer>
    requires !p.Null?
    reads if p.Ref? then {p.obj} else {}
  {
    if p.TaggedInt? then Some(numberProto) else p.obj.Prototype()
  }

  /** `chain` lists the prototypes reached from `p` by repeated `prototype`
      calls, until one answers none. */
  ghost predicate ProtoChain(p: Pointer, numberProto: Pointer, chain: seq<Pointer>)
    reads (if p.Ref? then {p.obj} else {}), Targets(chain)
  {
    !p.Null? &&
    ProtoOf(p, numberProto) == (if chain == [] then Option.None else Some(chain[0])) &&
    (forall i :: 0 <= i < |chain| ==> !chain[i].Null?) &&
    (forall i :: 0 <= i < |chain| - 1 ==> ProtoOf(chain[i], numberProto) == Some(chain[i + 1])) &&
    (chain != [] ==> ProtoOf(chain[|chain| - 1], numberProto).None?)
  }

  /** `is_kind_of`: `other` is one of the prototypes reached from the
      pointer; a null pointer panics in `get`. */
  method IsKindOf(p: Pointer, other: Pointer, numberProto: Pointer, ghost chain: seq<Pointer>)
    returns (r: Result<bool>)
    requires !p.Null? ==> ProtoChain(p, numberProto, chain)
    ensures r.Failure? <==> p.Null?
    ensures r.Success? ==> (r.value <==> other in chain)
  {
    if p.Null? {
      return Failure("ObjectPointer::get() called on a NULL pointer");
    }
    var prototype := ProtoOf(p, numberProto);
    ghost var k := 0;
    while prototype.Some?
      invariant 0 <= k <= |chain|
      invariant prototype.Some? <==> k < |chain|
      invariant prototype.Some? ==> prototype.value == chain[k]
      invariant other !in chain[..k]
      decreases |chain| - k
    {
      var proto := prototype.value;
      if proto == other {
        return Success(true);
      }
      assert chain[..k + 1] == chain[..k] + [proto];
      assert k < |chain| - 1 ==> ProtoOf(chain[k], numberProto) == Some(chain[k + 1]);
      prototype := ProtoOf(proto, numberProto);
      k := k + 1;
    }
    assert chain[..k] == chain;
    return Success(false);
  }
}
