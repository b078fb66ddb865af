/** Objects of the jlight runtime (`jlight-vm/src/runtime/object.rs`): a
    heap object holds a prototype pointer, an attribute map allocated on
    first use, and a value. A pointer is null, a tagged number (bit 0 set,
    the float's bits shifted left by one) or a reference to an object. */
module JlightObject {
  import opened Wrappers
  import opened Ints

  /** A function object's payload. `globals` stands for the `module` the
      function was compiled in: that module's globals, none when its globals
      pointer is null. */
  datatype FunctionValue = FunctionValue(name: string, upvalues: seq<Pointer>, argc: i32, native: bool,
                                         globals: Option<seq<Pointer>>)

  /** The payload of an object; numbers are kept as the bits of their
      `f64`, files, modules and threads by an opaque handle. */
  datatype ObjectValue =
    | None
    | Number(bits: u64)
    | Bool(b: bool)
    | String(s: string)
    | File(fd: nat)
    | Array(elems: seq<Pointer>)
    | ByteArray(bytes: seq<u8>)
    | Function(f: FunctionValue)
    | Module(id: nat)
    | Thread(handle: Option<nat>)

  datatype Pointer = Null | TaggedNumber(raw: u64) | Ref(obj: Object)

  /** `ObjectValue::should_deallocate_native`: everything but `None` owns
      native data. */
  function ShouldDeallocateNative(v: ObjectValue): (r: bool)
  {
    !v.None?
  }

  /** `ObjectPointer::as_string`: the string of a string object; a tagged
      number and any other object give the error `as_string` returns, which
      the interpreter unwraps into a panic. On the null pointer the source
      does not return an error: `get` dereferences it. The model gives the
      same error there, standing for that invalid dereference. */
  function AsString(p: Pointer): (r: Result<string>)
    reads if p.Ref? then {p.obj} else {}
    ensures r.Success? <==> p.Ref? && p.obj.value.String?
    ensures r.Success? ==> r.value == p.obj.value.s
  {
    if p.Ref? && p.obj.value.String? then Success(p.obj.value.s)
    else Failure("Called ObjectPointer::as_string() on non string")
  }

  // ---------------------------------------------------------------------------
  // Tagged numbers

  /** `ObjectPointer::number`: the bits shifted left by one (the top bit
      falls off the 64-bit word) with bit 0 set. */
  function NumberPtr(bits: u64): (p: Pointer)
    ensures p.TaggedNumber? && p.raw % 2 == 1 && p.raw != 0
  {
    TaggedNumber((bits * 2) % TWO_64 + 1)
  }

  /** The bits `number_value` reads back from a tagged number. */
  function TaggedBits(raw: u64): u64
  {
    raw / 2
  }

  /** A tagged number keeps the low 63 bits of its float: the sign bit is
      lost, so a negative number reads back as its absolute value. */
  lemma {:induction false} NumberRoundTrip(bits: u64)
    ensures TaggedBits(NumberPtr(bits).raw) == bits % TWO_63
    ensures bits < TWO_63 ==> TaggedBits(NumberPtr(bits).raw) == bits
  {
    var m := bits % TWO_63;
    var q := bits / TWO_63;
    assert bits == q * TWO_63 + m;
    assert bits * 2 == q * TWO_64 + 2 * m;
    assert 2 * m < TWO_64;
    assert (bits * 2) % TWO_64 == 2 * m;
  }

  // ---------------------------------------------------------------------------
  // Objects

  class Object {
    var prototype: Pointer
    var attributes: Option<map<string, Pointer>>
    var value: ObjectValue

    /** `Object::with_prototype` (`Object::new` passes a null prototype). */
    constructor (value: ObjectValue, prototype: Pointer)
      ensures this.value == value && this.prototype == prototype && attributes.None?
    {
      this.value := value;
      this.prototype := prototype;
      attributes := Option.None;
    }

    /** `ObjectValue::take` on this object's value: the value moves out and
        `None` is left behind. */
    method TakeValue() returns (v: ObjectValue)
      modifies this
      ensures v == old(value) && value == ObjectValue.None
      ensures !ShouldDeallocateNative(value)
      ensures prototype == old(prototype) && attributes == old(attributes)
    {
      v := value;
      value := ObjectValue.None;
    }

    /** `Object::prototype`: a null prototype reads as none. */
    function Prototype(): (r: Option<Pointer>)
      reads this
      ensures r.None? <==> prototype.Null?
      ensures r.Some? ==> r.value == prototype
    {
      if prototype.Null? then Option.None else Some(prototype)
    }

    /** `take_prototype`: the prototype moves out and null is left behind. */
    method TakePrototype() returns (r: Option<Pointer>)
      modifies this
      ensures r == old(Prototype()) && prototype.Null?
      ensures attributes == old(attributes) && value == old(value)
    {
      if prototype.Null? {
        return Option.None;
      }
      r := Some(prototype);
      prototype := Null;
    }

    /** `lookup_attribute_in_self`. */
    function LookupInSelf(name: string): (r: Option<Pointer>)
      reads this
      ensures r.Some? <==> attributes.Some? && name in attributes.value
      ensures r.Some? ==> r.value == attributes.value[name]
    {
      if attributes.Some? && name in attributes.value then Some(attributes.value[name]) else Option.None
    }

    /** `add_attribute`: allocates the map if there is none, then inserts. */
    method AddAttribute(name: string, v: Pointer)
      modifies this
      ensures attributes.Some?
      ensures attributes.value == (if old(attributes).Some? then old(attributes).value else map[])[name := v]
      ensures LookupInSelf(name) == Some(v)
      ensures prototype == old(prototype) && value == old(value)
    {
      var m := if attributes.Some? then attributes.value else map[];
      attributes := Some(m[name := v]);
    }

    /** `remove_attribute`: the removed entry, or none when the object has
        no map or no such entry. */
    method RemoveAttribute(name: string) returns (r: Option<Pointer>)
      modifies this
      ensures r == old(LookupInSelf(name))
      ensures LookupInSelf(name).None?
      ensures old(attributes).None? ==> attributes.None?
      ensures old(attributes).Some? ==> attributes == Some(old(attributes).value - {name})
      ensures prototype == old(prototype) && value == old(value)
    {
      if attributes.None? {
        return Option.None;
      }
      var m := attributes.value;
      r := if name in m then Some(m[name]) else Option.None;
      attributes := Some(m - {name});
    }
  }

  // ---------------------------------------------------------------------------
  // Walking the prototype chain of objects

  function Objects(chain: seq<Object>): set<Object>
  {
    set i | 0 <= i < |chain| :: chain[i]
  }

  /** `chain` is the object followed by its ancestors, each the prototype of
      the one before, ending with an object whose prototype is null. (A
      cyclic chain makes the source loop forever, so a finite chain is what
      a caller must supply.) */
  ghost predicate ObjChain(chain: seq<Object>)
    reads Objects(chain)
  {
    |chain| >= 1 &&
    (forall i :: 0 <= i < |chain| - 1 ==> chain[i].prototype == Ref(chain[i + 1])) &&
    chain[|chain| - 1].prototype.Null?
  }

  /** The first object on the chain that has the attribute decides. */
  function LookupIn(chain: seq<Object>, name: string): (r: Option<Pointer>)
    reads Objects(chain)
    decreases |chain|
  {
    if chain == [] then Option.None
    else if chain[0].LookupInSelf(name).Some? then chain[0].LookupInSelf(name)
    else LookupIn(chain[1..], name)
  }

  /** The lookup answers with the attribute of the first object on the chain
      that has it, and with none when no object on the chain has it. */
  lemma {:induction false} LookupInMeaning(chain: seq<Object>, name: string)
    ensures LookupIn(chain, name).None? <==>
      forall i :: 0 <= i < |chain| ==> chain[i].LookupInSelf(name).None?
    ensures LookupIn(chain, name).Some? ==>
      exists i :: 0 <= i < |chain| && LookupIn(chain, name) == chain[i].LookupInSelf(name) &&
        forall j :: 0 <= j < i ==> chain[j].LookupInSelf(name).None?
    decreases |chain|
  {
    if chain != [] && chain[0].LookupInSelf(name).None? {
      LookupInMeaning(chain[1..], name);
      if LookupIn(chain, name).Some? {
        var i :| 0 <= i < |chain| - 1 && LookupIn(chain[1..], name) == chain[1..][i].LookupInSelf(name) &&
          forall j :: 0 <= j < i ==> chain[1..][j].LookupInSelf(name).None?;
        assert forall j :: 0 <= j < i + 1 ==> chain[j].LookupInSelf(name).None? by {
          forall j | 0 <= j < i + 1 ensures chain[j].LookupInSelf(name).None? {
            if j > 0 { assert chain[j] == chain[1..][j - 1]; }
          }
        }
      } else {
        forall i | 0 <= i < |chain| ensures chain[i].LookupInSelf(name).None? {
          if i > 0 { assert chain[i] == chain[1..][i - 1]; }
        }
      }
    }
  }

  /** `Object::lookup_attribute`: the object's own attribute, else the first
      ancestor's. */
  method LookupAttribute(o: Object, name: string, ghost chain: seq<Object>) returns (r: Option<Pointer>)
    requires ObjChain(chain) && chain[0] == o
    ensures r == LookupIn(chain, name)
  {
    r := o.LookupInSelf(name);
    if r.Some? {
      return;
    }
    var parent := o.Prototype();
    ghost var k := 1;
    while parent.Some?
      invariant 1 <= k <= |chain|
      invariant parent.Some? <==> k < |chain|
      invariant parent.Some? ==> parent.value == Ref(chain[k])
      invariant LookupIn(chain, name) == LookupIn(chain[k..], name)
      decreases |chain| - k
    {
      var p := parent.value.obj;
      assert chain[k..][0] == p && chain[k..][1..] == chain[k + 1..];
      r := p.LookupInSelf(name);
      if r.Some? {
        return;
      }
      parent := p.Prototype();
      k := k + 1;
    }
    assert chain[k..] == [];
    return Option.None;
  }

  /** `ObjectPointer::lookup_attribute`: a tagged number looks the name up
      from the number prototype, an object from itself; null panics. */
  method PointerLookupAttribute(p: Pointer, numberProto: Object, name: string, ghost chain: seq<Object>)
    returns (r: Result<Option<Pointer>>)
    requires !p.Null? ==> ObjChain(chain) && chain[0] == (if p.TaggedNumber? then numberProto else p.obj)
    ensures r.Failure? <==> p.Null?
    ensures r.Success? ==> r.value == LookupIn(chain, name)
  {
    match p {
      case Null =>
        return Failure("ObjectPointer::get() called on a NULL pointer");
      case TaggedNumber(_) =>
        var v := LookupAttribute(numberProto, name, chain);
        return Success(v);
      case Ref(o) =>
        var v := LookupAttribute(o, name, chain);
        return Success(v);
    }
  }

  // ---------------------------------------------------------------------------
  // Pointers

  /** The objects a chain of pointers reaches. */
  function Targets(ps: seq<Pointer>): set<Object>
  {
    set q | q in ps && q.Ref? :: q.obj
  }

  /** `ObjectPointer::prototype` of a non-null pointer: numbers answer the
      number prototype, objects their own. */
  function ProtoOf(p: Pointer, numberProto: Pointer): Option<Pointer>
    requires !p.Null?
    reads if p.Ref? then {p.obj} else {}
  {
    if p.TaggedNumber? then Some(numberProto) else p.obj.Prototype()
  }

  /** `chain` lists the prototypes reached from `p` by repeated
      `prototype` calls, in order, until one answers none. */
  ghost predicate ProtoChain(p: Pointer, numberProto: Pointer, chain: seq<Pointer>)
    reads (if p.Ref? then {p.obj} else {}), Targets(chain)
  {
    !p.Null? &&
    ProtoOf(p, numberProto) == (if chain == [] then Option.None else Some(chain[0])) &&
    (forall i :: 0 <= i < |chain| ==> !chain[i].Null?) &&
    (forall i :: 0 <= i < |chain| - 1 ==>
      ProtoOf(chain[i], numberProto) == Some(chain[i + 1])) &&
    (chain != [] ==> ProtoOf(chain[|chain| - 1], numberProto).None?)
  }

  /** `ObjectPointer::is_kind_of`: `other` is one of the prototypes reached
      from the pointer; a null pointer panics in `get`. */
  method IsKindOf(p: Pointer, other: Pointer, numberProto: Pointer, ghost chain: seq<Pointer>)
    returns (r: Result<bool>)
    requires !p.Null? ==> ProtoChain(p, numberProto, chain)
    ensures r.Failure? <==> p.Null?
    ensures r.Success? ==> (r.value <==> other in chain)
  {
    if p.Null? {
      return Failure("ObjectPointer::get() called on a NULL pointer");
    }
    var prototype := ProtoOf(p, numberProto);
    ghost var k := 0;
    while prototype.Some?
      invariant 0 <= k <= |chain|
      invariant prototype.Some? <==> k < |chain|
      invariant prototype.Some? ==> prototype.value == chain[k]
      invariant other !in chain[..k]
      decreases |chain| - k
    {
      var proto := prototype.value;
      if proto == other {
        return Success(true);
      }
      assert chain[..k + 1] == chain[..k] + [proto];
      assert proto in chain;
      assert k < |chain| - 1 ==> ProtoOf(chain[k], numberProto) == Some(chain[k + 1]);
      prototype := ProtoOf(proto, numberProto);
      k := k + 1;
    }
    assert chain[..k] == chain;
    return Success(false);
  }

  /** `ObjectPointer::is_false` (`nilProto` is the runtime's nil prototype):
      null, a zero number, `false` and `None` are false, `true` is not, and
      any other value is false only when it is the nil prototype itself. */
  function IsFalse(p: Pointer, nilProto: Pointer): (r: bool)
    reads if p.Ref? then {p.obj} else {}
  {
    match p
    case Null => true
    case TaggedNumber(raw) => TaggedBits(raw) == 0
    case Ref(o) =>
      match o.value
      case Bool(b) => !b
      case None => true
      case _ => p == nilProto
  }

  /** The nil prototype is false and so is a null pointer; `true` never is,
      and only the zero number among the tagged numbers is. */
  lemma IsFalseCases(p: Pointer, nilProto: Pointer, bits: u64)
    ensures IsFalse(Null, nilProto)
    ensures nilProto.Ref? && !nilProto.obj.value.Bool? ==> IsFalse(nilProto, nilProto)
    ensures p.Ref? && p.obj.value == Bool(true) ==> !IsFalse(p, nilProto)
    ensures bits < TWO_63 ==> (IsFalse(NumberPtr(bits), nilProto) <==> bits == 0)
  {
    if bits < TWO_63 { NumberRoundTrip(bits); }
  }

  /** Elements joined by `,` as `to_string` writes them. */
  function Joined(parts: seq<string>): string
  {
    if parts == [] then ""
    else if |parts| == 1 then parts[0]
    else parts[0] + "," + Joined(parts[1..])
  }

  lemma JoinedSnoc(parts: seq<string>, p: string)
    ensures Joined(parts + [p]) == (if parts == [] then p else Joined(parts) + "," + p)
    decreases |parts|
  {
    if |parts| >= 2 {
      assert (parts + [p])[1..] == parts[1..] + [p];
      JoinedSnoc(parts[1..], p);
    } else if |parts| == 1 {
      assert (parts + [p])[1..] == [p];
    }
  }

  /** `to_string` of an array, given the strings of its elements: `[`, the
      element strings separated by `,`, then `]`. */
  method ArrayToString(parts: seq<string>) returns (s: string)
    ensures s == "[" + Joined(parts) + "]"
  {
    s := "[";
    var i := 0;
    while i < |parts|
      invariant 0 <= i <= |parts|
      invariant s == "[" + Joined(parts[..i]) + (if 0 < i < |parts| then "," else "")
    {
      JoinedSnoc(parts[..i], parts[i]);
      assert parts[..i + 1] == parts[..i] + [parts[i]];
      s := s + parts[i];
      if i != |parts| - 1 {
        s := s + ",";
      }
      i := i + 1;
    }
    assert parts[..i] == parts;
    s := s + "]";
  }
}
