/** The string interner of the jlight runtime
    (`jlight-vm/src/runtime/string_pool.rs`): a map from strings to their
    `Name` (an index) and the vector of interned strings. */
module StringPool {
  import opened Wrappers

  /** The two tables agree: every key is stored at its name, and every slot
      of the vector is a key whose name is that slot. */
  predicate Agree(names: map<string, nat>, strings: seq<string>)
  {
    (forall k :: k in names ==> names[k] < |strings| && strings[names[k]] == k) &&
    (forall i :: 0 <= i < |strings| ==> strings[i] in names && names[strings[i]] == i)
  }

  /** Distinct strings have distinct names, and the names in use are exactly
      `0 .. |strings|`. */
  lemma AgreeMeaning(names: map<string, nat>, strings: seq<string>, a: string, b: string)
    requires Agree(names, strings)
    ensures a in names && b in names && a != b ==> names[a] != names[b]
    ensures forall n :: n in names.Values ==> n < |strings|
    ensures forall i :: 0 <= i < |strings| ==> i in names.Values
  {
    forall i | 0 <= i < |strings|
      ensures i in names.Values
    {
      assert strings[i] in names && names[strings[i]] == i;
    }
  }

  class Interner {
    var names: map<string, nat>
    var strings: seq<string>

    predicate Valid()
      reads this
    {
      Agree(names, strings)
    }

    constructor ()
      ensures Valid() && names == map[] && strings == []
    {
      names := map[];
      strings := [];
    }

    /** `intern`: the existing name of a known string; a new string gets the
        next index, is appended and recorded. */
    method Intern(s: string) returns (name: nat)
      requires Valid()
      modifies this
      ensures Valid()
      ensures s in old(names) ==> name == old(names)[s] && names == old(names) && strings == old(strings)
      ensures s !in old(names) ==>
        name == |old(strings)| && strings == old(strings) + [s] && names == old(names)[s := name]
      ensures name < |strings| && strings[name] == s && names[s] == name
    {
      if s in names {
        return names[s];
      }
      name := |strings|;
      strings := strings + [s];
      names := names[s := name];
    }

    /** `str`: the string of a name; an index past the vector panics. */
    method Str(name: nat) returns (r: Result<string>)
      ensures r.Success? <==> name < |strings|
      ensures r.Success? ==> r.value == strings[name]
    {
      if name >= |strings| {
        return Failure("index out of bounds");
      }
      return Success(strings[name]);
    }

    /** Interning and reading back gives the string again, and interning
        twice gives the same name without growing the tables. */
    method RoundTrip(s: string) returns (back: Result<string>, again: nat)
      requires Valid()
      modifies this
      ensures Valid()
      ensures back == Success(s)
      ensures s in names && again == names[s] && |strings| == |old(strings)| + (if s in old(names) then 0 else 1)
    {
      var name := Intern(s);
      back := Str(name);
      again := Intern(s);
      assert again == name;
    }
  }
}
