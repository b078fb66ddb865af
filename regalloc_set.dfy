/** `Set<T>` of the register allocator (`data_structures.rs`): a hash set
    that the allocator updates in place. */
module RegallocSet {

  class Set<T(==)> {
    /** The underlying hash set. */
    var items: set<T>

    constructor Empty()
      ensures items == {}
    {
      items := {};
    }

    constructor Unit(item: T)
      ensures items == {item}
    {
      items := {item};
    }

    constructor Two(item1: T, item2: T)
      ensures items == {item1, item2}
    {
      items := {item1, item2};
    }

    /** `from_vec`: inserts every element of `vec`, one at a time. */
    static method FromVec(vec: seq<T>) returns (s: Set<T>)
      ensures fresh(s)
      ensures forall x :: x in s.items <==> x in vec
    {
      s := new Set.Empty();
      var i := 0;
      while i < |vec|
        invariant 0 <= i <= |vec|
        invariant forall x :: x in s.items <==> x in vec[..i]
      {
        s.Insert(vec[i]);
        assert vec[..i + 1] == vec[..i] + [vec[i]];
        i := i + 1;
      }
      assert vec[..i] == vec;
    }

    function Card(): nat
      reads this
    {
      |items|
    }

    predicate IsEmpty()
      reads this
    {
      items == {}
    }

    predicate Contains(item: T)
      reads this
    {
      item in items
    }

    method Insert(item: T)
      modifies this
      ensures items == old(items) + {item}
    {
      items := items + {item};
    }

    /** `intersect`: builds a fresh set of the items also in `other`, then
        replaces this set by it. */
    method Intersect(other: Set<T>)
      modifies this
      ensures items == old(items) * old(other.items)
    {
      var res: set<T> := {};
      var todo := items;
      while todo != {}
        invariant todo <= items
        invariant items == old(items) && other.items == old(other.items)
        invariant res == (items - todo) * other.items
        decreases todo
      {
        var item :| item in todo;
        if item in other.items {
          res := res + {item};
        }
        todo := todo - {item};
      }
      items := res;
    }

    /** `union`: inserts every item of `other`. */
    method Union(other: Set<T>)
      modifies this
      ensures items == old(items) + old(other.items)
    {
      var todo := other.items;
      ghost var others := other.items;
      while todo != {}
        invariant todo <= others
        invariant items == old(items) + (others - todo)
        decreases todo
      {
        var item :| item in todo;
        items := items + {item};
        todo := todo - {item};
      }
    }

    /** `remove`: deletes every item of `other`. */
    method Remove(other: Set<T>)
      modifies this
      ensures items == old(items) - old(other.items)
    {
      var todo := other.items;
      ghost var others := other.items;
      while todo != {}
        invariant todo <= others
        invariant items == old(items) - (others - todo)
        decreases todo
      {
        var item :| item in todo;
        items := items - {item};
        todo := todo - {item};
      }
    }

    /** `intersects`: the two sets are not disjoint. */
    predicate Intersects(other: Set<T>)
      reads this, other
    {
      !(items !! other.items)
    }

    predicate IsSubsetOf(other: Set<T>)
      reads this, other
    {
      items <= other.items
    }

    predicate Equals(other: Set<T>)
      reads this, other
    {
      items == other.items
    }
  }
}
