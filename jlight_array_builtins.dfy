/** The native methods of the jlight array prototype
    (`jlight-vm/src/runtime/builtins/array.rs`): `init` and `length`. */
module JlightArrayBuiltins {
  import opened Wrappers
  import opened JlightObject

  const NOT_AN_ARRAY: string := "Not an array"

  /** The elements of an array value, or none for any other value. */
  function Elements(v: ObjectValue): Option<seq<Pointer>>
  {
    if v.Array? then Some(v.elems) else Option.None
  }

  /** `array_init(x, args)`: an array receiver gets every argument pushed,
      in order; any other value of the receiver is replaced by an array of
      the arguments. The receiver is always the result. */
  method ArrayInit(x: Pointer, args: seq<Pointer>) returns (r: Pointer)
    requires x.Ref?
    modifies x.obj
    ensures r == x
    ensures old(x.obj.value).Array? ==> x.obj.value == Array(old(x.obj.value).elems + args)
    ensures !old(x.obj.value).Array? ==> x.obj.value == Array(args)
    ensures x.obj.prototype == old(x.obj.prototype) && x.obj.attributes == old(x.obj.attributes)
  {
    var o := x.obj;
    if o.value.Array? {
      ghost var start := o.value.elems;
      for i := 0 to |args|
        invariant o.value == Array(start + args[..i])
        invariant o.prototype == old(o.prototype) && o.attributes == old(o.attributes)
      {
        assert start + args[..i + 1] == (start + args[..i]) + [args[i]];
        o.value := Array(o.value.elems + [args[i]]);
      }
      assert args[..|args|] == args;
    } else {
      o.value := Array(args);
    }
    r := x;
  }

  /** `array_length(x)`: the length of an array receiver, and the error
      "Not an array" for any other value; a null receiver fails the
      assertion. */
  function ArrayLength(x: Pointer): (r: Result<nat>)
    requires x.Ref?
    reads x.obj
    ensures r.Success? <==> x.obj.value.Array?
    ensures r.Success? ==> r.value == |x.obj.value.elems|
    ensures r.Failure? ==> r.error == NOT_AN_ARRAY
  {
    match Elements(x.obj.value)
    case Some(elems) => Success(|elems|)
    case None => Failure(NOT_AN_ARRAY)
  }

  /** After `init`, `length` counts the old elements and the arguments, or
      only the arguments when the receiver was not an array. */
  method InitThenLength(x: Pointer, args: seq<Pointer>) returns (len: Result<nat>)
    requires x.Ref?
    modifies x.obj
    ensures len == Success((if old(x.obj.value).Array? then |old(x.obj.value).elems| else 0) + |args|)
  {
    var r := ArrayInit(x, args);
    len := ArrayLength(r);
  }
}
