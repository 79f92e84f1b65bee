/**
 The pool of connection slices (registry.go, `getConnectionSlice` and `putConnectionSlice`) and Go's append on them.
 A slice starts at the front of its backing array, and its capacity is the length of that array.
 */
module SlicePool {
  import opened Registry

  /** One element of a slice of connection pointers. */
  datatype Slot = Nil | Ref(conn: Conn)

  datatype Slice = NoSlice | Slice(backing: array<Slot>, len: nat) {

    ghost function Footprint(): set<object>
    {
      if Slice? then {backing} else {}
    }

    function Capacity(): nat
    {
      if Slice? then backing.Length else 0
    }

    function Len(): nat
    {
      if Slice? then len else 0
    }

    ghost predicate Ok()
    {
      Len() <= Capacity()
    }

    ghost function Slots(): (slots: seq<Slot>)
      requires Ok()
      reads Footprint()
    {
      if Slice? then backing[..len] else []
    }
  }

  ghost predicate Cleared(slots: seq<Slot>)
  {
    forall i :: 0 <= i < |slots| ==> slots[i] == Nil
  }

  /** Go's `append`: in place while there is room, else on a larger copy, and the old array stays as it was. */
  method Append(s: Slice, c: Conn) returns (r: Slice)
    requires s.Ok()
    modifies s.Footprint()
    ensures r.Slice? && r.Ok() && r.Slots() == old(s.Slots()) + [Ref(c)]
    ensures s.Len() < s.Capacity() ==> r == s.(len := s.len + 1)
    ensures s.Len() == s.Capacity() ==> fresh(r.backing) && s.Slots() == old(s.Slots())
  {
    var n := s.Len();
    if n < s.Capacity() {
      s.backing[n] := Ref(c);
      return Slice(s.backing, n + 1);
    }
    var grown := new Slot[2 * n + 1](_ => Nil);
    for i := 0 to n
      modifies grown
      invariant grown[..i] == s.Slots()[..i]
    {
      grown[i] := s.backing[i];
    }
    grown[n] := Ref(c);
    return Slice(grown, n + 1);
  }

  class ConnectionSlicePool {
    var free: set<array<Slot>>
    ghost var lent: set<array<Slot>>  // taken and not yet put back

    constructor ()
      ensures Valid() && free == {} && lent == {}
    {
      free, lent := {}, {};
    }

    /** No array is both free and lent, and the free ones hold no connection. */
    ghost predicate Valid()
      reads this, free
    {
      && free !! lent
      && forall a :: a in free ==> Cleared(a[..])
    }

    /** Between then and now exactly the array of `s` was taken, and what is lent to others is untouched. */
    twostate predicate Took(new s: Slice)
      reads this, free, lent
    {
      && Valid() && s.Ok()
      && free == old(free) - (if s.Slice? then {s.backing} else {})
      && lent == old(lent) + (if s.Slice? then {s.backing} else {})
      && (s.Slice? ==> s.backing !in old(lent) && s.backing.Length > 0 && (s.backing in old(free) || fresh(s.backing)))
      && forall a :: a in old(lent) ==> a[..] == old(a[..])
    }

    /** `getConnectionSlice`: any free array that is large enough, or a new one; no slice for no connections. */
    method GetConnectionSlice(size: nat) returns (s: Slice)
      requires Valid()
      modifies this
      ensures Took(s) && size <= s.Capacity() && s.Len() == 0
      ensures s.NoSlice? <==> size == 0
    {
      if size == 0 {
        return NoSlice;
      }
      if {
        case a :| a in free && size <= a.Length =>
          s := Slice(a, 0);
        case true =>
          var made := new Slot[size](_ => Nil);
          s := Slice(made, 0);
      }
      free, lent := free - {s.backing}, lent + {s.backing};
    }

    /** `putConnectionSlice`: clears the whole capacity, not only the part in use, and frees the array. */
    method PutConnectionSlice(s: Slice)
      requires Valid() && s.Ok() && (s.Slice? ==> s.backing !in free)
      modifies this, s.Footprint()
      ensures Valid()
      ensures s.Capacity() == 0 ==> free == old(free) && lent == old(lent)
      ensures s.Capacity() > 0 ==>
                free == old(free) + {s.backing} && lent == old(lent) - {s.backing} && Cleared(s.backing[..])
    {
      if s.Capacity() == 0 {
        return;
      }
      var backing := s.backing;
      for i := 0 to backing.Length
        modifies backing
        invariant Cleared(backing[..i])
      {
        backing[i] := Nil;
      }
      free, lent := free + {backing}, lent - {backing};
    }
  }
}
