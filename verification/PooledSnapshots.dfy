/**
 The snapshots the server takes for a batch (registry.go, the pooled variants): they fill a slice from the pool in
 place, and the batch gives it back. Each lists the same connections as its plain counterpart in RegistryObject.
 */
module PooledSnapshots {
  import opened Registry
  import opened RegistryObject
  import opened SlicePool

  /** A filled slice: no connection twice, no empty slot. */
  ghost predicate Listing(slots: seq<Slot>)
  {
    Distinct(slots) && Nil !in slots
  }

  lemma ListingAppend(slots: seq<Slot>, c: Conn)
    requires Listing(slots) && Ref(c) !in slots
    ensures Listing(slots + [Ref(c)])
    ensures forall x :: x in slots + [Ref(c)] <==> x in slots || x == Ref(c)
  {
  }

  predicate SameArray(s: Slice, t: Slice)
  {
    if s.Slice? then t.Slice? && t.backing == s.backing else t == s
  }

  lemma TotalOfPrefix(users: Index, ids: seq<string>, i: nat)
    requires i <= |ids|
    ensures Total(users, ids[..i]) <= Total(users, ids)
    decreases |ids| - i
  {
    if i == |ids| {
      assert ids[..i] == ids;
    } else {
      assert ids[..i + 1][..i] == ids[..i];
      TotalOfPrefix(users, ids, i + 1);
    }
  }

  // ---- filling ------------------------------------------------------------------------

  /** What a loop over the set `m` has listed when the keys in `todo` are still to come. */
  ghost predicate Filled(slots: seq<Slot>, first: seq<Slot>, m: map<string, Conn>, skipped: set<string>,
                         todo: set<string>)
  {
    && Listing(slots)
    && forall c :: Ref(c) in slots <==> Ref(c) in first || (Member(m, c) && Key(c) !in skipped && Key(c) !in todo)
  }

  lemma FillNext(slots: seq<Slot>, first: seq<Slot>, m: map<string, Conn>, skipped: set<string>, todo: set<string>,
                 key: string)
    requires Filed(m) && Filled(slots, first, m, skipped, todo) && key in todo && todo <= m.Keys
    requires forall c :: Ref(c) in first ==> Key(c) in skipped
    ensures Filled(if key in skipped then slots else slots + [Ref(m[key])], first, m, skipped, todo - {key})
  {
    if key !in skipped {
      ListingAppend(slots, m[key]);
    }
  }

  /** The `Range` callback of `userSnapshotPooled`. */
  method Visit(key: string, c: Conn, before: Slice, seenBefore: set<string>) returns (s: Slice, seen: set<string>)
    requires before.Len() < before.Capacity()
    modifies before.Footprint()
    ensures s.Ok() && SameArray(before, s)
    ensures s.Slots() == old(before.Slots()) + if key in seenBefore then [] else [Ref(c)]
    ensures seen == seenBefore + {key}
  {
    s, seen := before, seenBefore + {key};
    if key !in seenBefore {
      s := Append(s, c);
    }
  }

  /** That callback over one user's set, in any order. */
  method AppendUnseen(m: map<string, Conn>, before: Slice, seenBefore: set<string>)
    returns (s: Slice, seen: set<string>)
    requires Filed(m) && before.Ok() && Listing(before.Slots()) && before.Len() + |m| <= before.Capacity()
    requires forall c :: Ref(c) in before.Slots() ==> Key(c) in seenBefore
    modifies before.Footprint()
    ensures s.Ok() && SameArray(before, s) && s.Len() <= before.Len() + |m|
    ensures Filled(s.Slots(), old(before.Slots()), m, seenBefore, {})
    ensures seen == seenBefore + m.Keys
  {
    s, seen := before, seenBefore;
    ghost var first := before.Slots();
    var todo := m.Keys;
    assert |m.Keys| == |m|;
    while todo != {}
      invariant todo <= m.Keys && forall k :: k in seen <==> k in seenBefore || (k in m && k !in todo)
      invariant s.Ok() && SameArray(before, s) && s.Len() + |todo| <= before.Len() + |m|
      invariant Filled(s.Slots(), first, m, seenBefore, todo)
      decreases |todo|
    {
      var key :| key in todo;
      FillNext(s.Slots(), first, m, seenBefore, todo, key);
      todo := todo - {key};
      s, seen := Visit(key, m[key], s, seen);
    }
  }

  /** The loop of `copyConnectionSetPooled` and of `allConnectionsPooled`, in any order. */
  method AppendAll(m: map<string, Conn>, before: Slice) returns (s: Slice)
    requires Filed(m) && before.Len() == 0 && |m| <= before.Capacity()
    modifies before.Footprint()
    ensures s.Ok() && SameArray(before, s) && s.Len() == |m|
    ensures Filled(s.Slots(), [], m, {}, {})
  {
    s := before;
    var todo := m.Keys;
    assert |m.Keys| == |m|;
    while todo != {}
      invariant todo <= m.Keys && s.Ok() && SameArray(before, s) && s.Len() + |todo| == |m|
      invariant Filled(s.Slots(), [], m, {}, todo)
      decreases |todo|
    {
      var key :| key in todo;
      FillNext(s.Slots(), [], m, {}, todo, key);
      todo := todo - {key};
      s := Append(s, m[key]);
    }
  }

  /** `copyConnectionSetPooled`. */
  method CopyConnectionSetPooled(pool: ConnectionSlicePool, m: map<string, Conn>) returns (s: Slice)
    requires Filed(m) && pool.Valid()
    modifies pool, pool.free
    ensures pool.Took(s) && Listing(s.Slots()) && s.Len() == |m|
    ensures forall c :: Ref(c) in s.Slots() <==> Member(m, c)
  {
    s := pool.GetConnectionSlice(|m|);
    s := AppendAll(m, s);
  }

  // ---- the snapshots ------------------------------------------------------------------

  /** `allConnectionsPooled`. */
  method AllConnectionsPooled(reg: ConnectionRegistry, pool: ConnectionSlicePool) returns (s: Slice)
    requires KeysMatch(reg.connections, reg.nextSerial) && pool.Valid()
    modifies pool, pool.free
    ensures pool.Took(s) && Listing(s.Slots()) && s.Len() == |reg.connections|
    ensures forall c :: Ref(c) in s.Slots() <==> Holds(reg.State(), c)
  {
    var m := map k | k in reg.connections :: reg.connections[k].conn;
    assert m.Keys == reg.connections.Keys;
    assert |m| == |m.Keys| && |reg.connections| == |reg.connections.Keys|;
    s := CopyConnectionSetPooled(pool, m);
    assert forall c :: Member(m, c) <==> Holds(reg.State(), c);
  }

  /** `groupConnectionsPooled`. */
  method GroupConnectionsPooled(reg: ConnectionRegistry, pool: ConnectionSlicePool, group: string) returns (s: Slice)
    requires Valid(reg.State()) && pool.Valid()
    modifies pool, pool.free
    ensures pool.Took(s) && Listing(s.Slots())
    ensures forall c :: Ref(c) in s.Slots() <==>
              Holds(reg.State(), c) && group in reg.connections[Key(c)].groups
  {
    if group !in reg.groups {
      forall c ensures !(Holds(reg.State(), c) && group in reg.connections[Key(c)].groups) {
        assert !In(reg.groups, group, Key(c));
      }
      return NoSlice;
    }
    var m := reg.groups[group];
    forall k | k in m ensures Key(m[k]) == k && k in reg.connections && reg.connections[k].conn == m[k]
                        && group in reg.connections[k].groups {
      assert In(reg.groups, group, k);
    }
    forall c ensures Member(m, c) <==> Holds(reg.State(), c) && group in reg.connections[Key(c)].groups {
      if Key(c) in reg.connections {
        assert In(reg.groups, group, Key(c)) <==> group in GroupTags(reg.connections[Key(c)]);
      }
    }
    s := CopyConnectionSetPooled(pool, m);
  }

  ghost predicate IdsListed(r: Reg, slots: seq<Slot>, ids: seq<string>)
  {
    Listing(slots) && forall c :: Ref(c) in slots <==> Holds(r, c) && Key(c) in ids
  }

  /** One more id: blank, a repeat, unknown, or the key of one more connection. */
  lemma NextId(r: Reg, slots: seq<Slot>, ids: seq<string>, id: string)
    requires KeysMatch(r.connections, r.nextSerial) && IdsListed(r, slots, ids)
    ensures var more := if id != "" && id !in ids && id in r.connections then [Ref(r.connections[id].conn)] else [];
            IdsListed(r, slots + more, ids + [id])
  {
    if id != "" && id !in ids && id in r.connections {
      ListingAppend(slots, r.connections[id].conn);
    } else {
      assert slots + [] == slots;
    }
  }

  /** The loop over several ids. */
  method AppendIds(reg: ConnectionRegistry, ids: seq<string>, before: Slice) returns (s: Slice)
    requires KeysMatch(reg.connections, reg.nextSerial) && before.Len() == 0 && |ids| <= before.Capacity()
    modifies before.Footprint()
    ensures s.Ok() && SameArray(before, s) && s.Len() <= |ids| && IdsListed(reg.State(), s.Slots(), ids)
  {
    ghost var r := reg.State();
    s := before;
    var seen: set<string> := {};
    for i := 0 to |ids|
      invariant s.Ok() && SameArray(before, s) && s.Len() <= i
      invariant forall k :: k in seen <==> k in ids[..i] && k != ""
      invariant IdsListed(r, s.Slots(), ids[..i])
    {
      var id := ids[i];
      NextId(r, s.Slots(), ids[..i], id);
      assert ids[..i + 1] == ids[..i] + [id] && s.Slots() + [] == s.Slots();
      if id == "" || id in seen {
        continue;
      }
      seen := seen + {id};
      if id in reg.connections {
        s := Append(s, reg.connections[id].conn);
      }
    }
    assert ids[..|ids|] == ids;
  }

  /** `connectionSnapshotPooled`. */
  method ConnectionSnapshotPooled(reg: ConnectionRegistry, pool: ConnectionSlicePool, ids: seq<string>)
    returns (s: Slice)
    requires KeysMatch(reg.connections, reg.nextSerial) && pool.Valid()
    modifies pool, pool.free
    ensures pool.Took(s) && Listing(s.Slots()) && s.Len() <= |ids|
    ensures forall c :: Ref(c) in s.Slots() <==> Holds(reg.State(), c) && Key(c) in ids
  {
    if |ids| == 0 {
      return NoSlice;
    }
    if |ids| == 1 {
      var id := ids[0];
      if id == "" || id !in reg.connections {
        return NoSlice;
      }
      s := pool.GetConnectionSlice(1);
      s := Append(s, reg.connections[id].conn);
      return;
    }
    s := pool.GetConnectionSlice(|ids|);
    s := AppendIds(reg, ids, s);
  }

  ghost predicate UsersListed(r: Reg, slots: seq<Slot>, seen: set<string>, ids: seq<string>)
  {
    && Listing(slots)
    && (forall c :: Ref(c) in slots <==> OfUser(r, c, ids))
    && (forall k :: k in seen <==> k in r.connections && Ref(r.connections[k].conn) in slots)
  }

  lemma ListedKeysSeen(r: Reg, slots: seq<Slot>, seen: set<string>, ids: seq<string>)
    requires UsersListed(r, slots, seen, ids)
    ensures forall c :: Ref(c) in slots ==> Key(c) in seen
  {
  }

  /** One more user, who may be blank, unknown or a repeat. */
  lemma NextUser(r: Reg, slots: seq<Slot>, seen: set<string>, ids: seq<string>, id: string, after: seq<Slot>)
    requires Valid(r) && UsersListed(r, slots, seen, ids)
    requires Filled(after, slots, SetOf(r.users, id), seen, {})
    ensures UsersListed(r, after, seen + SetOf(r.users, id).Keys, ids + [id])
  {
    UserSetMembers(r, id);
    forall c ensures Ref(c) in after <==> OfUser(r, c, ids + [id]) {
      assert OfUser(r, c, ids + [id]) <==> OfUser(r, c, ids) || Member(SetOf(r.users, id), c);
    }
  }

  /** The path for a single id. */
  method OneUserPooled(reg: ConnectionRegistry, pool: ConnectionSlicePool, id: string) returns (s: Slice)
    requires Valid(reg.State()) && pool.Valid()
    modifies pool, pool.free
    ensures pool.Took(s) && Listing(s.Slots()) && s.Len() == |SetOf(reg.users, id)|
    ensures forall c :: Ref(c) in s.Slots() <==> OfUser(reg.State(), c, [id])
  {
    UserSetMembers(reg.State(), id);
    if id == "" || id !in reg.users {
      assert SetOf(reg.users, id) == map[];
      assert forall c :: !Member(SetOf(reg.users, id), c);
      return NoSlice;
    }
    s := CopyConnectionSetPooled(pool, reg.users[id]);
  }

  /** The body of the general path. */
  method ListUser(ghost r: Reg, ghost ids: seq<string>, users: Index, id: string, before: Slice,
                  seenBefore: set<string>)
    returns (s: Slice, seen: set<string>)
    requires Valid(r) && users == r.users && before.Ok() && before.Len() + |SetOf(users, id)| <= before.Capacity()
    requires UsersListed(r, before.Slots(), seenBefore, ids)
    modifies before.Footprint()
    ensures s.Ok() && SameArray(before, s) && s.Len() <= before.Len() + |SetOf(users, id)|
    ensures UsersListed(r, s.Slots(), seen, ids + [id])
  {
    ghost var first := before.Slots();
    UserSetMembers(r, id);
    s, seen := before, seenBefore;
    if id != "" && id in users {
      ListedKeysSeen(r, first, seenBefore, ids);
      s, seen := AppendUnseen(users[id], before, seenBefore);
    }
    assert seen == seenBefore + SetOf(users, id).Keys;
    NextUser(r, first, seenBefore, ids, id, s.Slots());
  }

  /** The loop over several ids, which may be repeated, blank or unknown. */
  method AppendUsers(reg: ConnectionRegistry, ids: seq<string>, before: Slice) returns (s: Slice)
    requires Valid(reg.State()) && before.Len() == 0 && Total(reg.users, ids) <= before.Capacity()
    modifies before.Footprint()
    ensures s.Ok() && SameArray(before, s) && s.Len() <= Total(reg.users, ids) && Listing(s.Slots())
    ensures forall c :: Ref(c) in s.Slots() <==> OfUser(reg.State(), c, ids)
  {
    ghost var r := reg.State();
    s := before;
    var seen: set<string> := {};
    for i := 0 to |ids|
      invariant s.Ok() && SameArray(before, s) && s.Len() <= Total(r.users, ids[..i])
      invariant UsersListed(r, s.Slots(), seen, ids[..i])
    {
      var id := ids[i];
      assert ids[..i + 1] == ids[..i] + [id] && ids[..i + 1][..i] == ids[..i];
      TotalOfPrefix(r.users, ids, i + 1);
      s, seen := ListUser(r, ids[..i], reg.users, id, s, seen);
    }
    assert ids[..|ids|] == ids;
  }

  /** `userSnapshotPooled`: what is reserved is enough, so no append ever moves to another array. */
  method UserSnapshotPooled(reg: ConnectionRegistry, pool: ConnectionSlicePool, ids: seq<string>)
    returns (s: Slice)
    requires Valid(reg.State()) && pool.Valid()
    modifies pool, pool.free
    ensures pool.Took(s) && Listing(s.Slots()) && s.Len() <= Total(reg.users, ids)
    ensures forall c :: Ref(c) in s.Slots() <==> OfUser(reg.State(), c, ids)
  {
    if |ids| == 0 {
      return NoSlice;
    }
    if |ids| == 1 {
      s := OneUserPooled(reg, pool, ids[0]);
      assert ids == [ids[0]] && ids[..0] == [];
      return;
    }
    var total := reg.CountUsers(ids);
    if total == 0 {
      NobodyThere(reg.State(), ids);
      return NoSlice;
    }
    s := pool.GetConnectionSlice(total);
    s := AppendUsers(reg, ids, s);
  }

  // ---- pooled and plain agree ---------------------------------------------------------

  function Refs(conns: seq<Conn>): seq<Slot>
  {
    if conns == [] then [] else Refs(conns[..|conns| - 1]) + [Ref(conns[|conns| - 1])]
  }

  lemma {:induction false} DistinctCounts<T>(s: seq<T>, x: T)
    requires Distinct(s)
    ensures multiset(s)[x] == if x in s then 1 else 0
  {
    if s != [] {
      var n := |s| - 1;
      assert s == s[..n] + [s[n]];
      DistinctCounts(s[..n], x);
    }
  }

  lemma {:induction false} RefsCount(conns: seq<Conn>, c: Conn)
    ensures multiset(Refs(conns))[Ref(c)] == multiset(conns)[c] && Nil !in Refs(conns)
  {
    if conns != [] {
      var n := |conns| - 1;
      assert conns == conns[..n] + [conns[n]];
      RefsCount(conns[..n], c);
    }
  }

  /** Two listings of the same connections differ at most in their order. */
  lemma ListingsAgree(slots: seq<Slot>, conns: seq<Conn>)
    requires Listing(slots) && Distinct(conns)
    requires forall c :: Ref(c) in slots <==> c in conns
    ensures multiset(slots) == multiset(Refs(conns)) && |slots| == |conns|
  {
    forall x ensures multiset(slots)[x] == multiset(Refs(conns))[x] {
      DistinctCounts(slots, x);
      match x
      case Nil => RefsCount(conns, Conn(0, "", ""));
      case Ref(c) =>
        RefsCount(conns, c);
        DistinctCounts(conns, c);
    }
    RefsLength(conns);
    assert multiset(slots) == multiset(Refs(conns));
    assert |slots| == |multiset(slots)|;
  }

  lemma {:induction false} RefsLength(conns: seq<Conn>)
    ensures |Refs(conns)| == |conns|
  {
    if conns != [] {
      RefsLength(conns[..|conns| - 1]);
    }
  }

  /** Both variants of the user snapshot on one registry. */
  method UserSnapshotsAgree(reg: ConnectionRegistry, pool: ConnectionSlicePool, ids: seq<string>)
    returns (s: Slice, plain: seq<Conn>)
    requires Valid(reg.State()) && pool.Valid()
    modifies pool, pool.free
    ensures pool.Took(s) && multiset(s.Slots()) == multiset(Refs(plain)) && s.Len() == |plain|
  {
    s := UserSnapshotPooled(reg, pool, ids);
    var total;
    plain, total := reg.UserSnapshot(ids);
    ListingsAgree(s.Slots(), plain);
  }

  /** Both variants of the connection snapshot on one registry. */
  method ConnectionSnapshotsAgree(reg: ConnectionRegistry, pool: ConnectionSlicePool, ids: seq<string>)
    returns (s: Slice, plain: seq<Conn>)
    requires KeysMatch(reg.connections, reg.nextSerial) && pool.Valid()
    modifies pool, pool.free
    ensures pool.Took(s) && multiset(s.Slots()) == multiset(Refs(plain)) && s.Len() == |plain|
  {
    s := ConnectionSnapshotPooled(reg, pool, ids);
    plain := reg.ConnectionSnapshot(ids);
    ListingsAgree(s.Slots(), plain);
  }

  // ---- a batch and its release --------------------------------------------------------

  function KeysListed(slots: seq<Slot>): set<string>
    requires Nil !in slots
  {
    set i | 0 <= i < |slots| :: Key(slots[i].conn)
  }

  /** Connections under their own keys are as many as their keys. */
  lemma {:induction false} KeysAreAsMany(slots: seq<Slot>, connections: map<string, Entry>)
    requires Listing(slots)
    requires forall c :: Ref(c) in slots ==> Key(c) in connections && connections[Key(c)].conn == c
    ensures |KeysListed(slots)| == |slots|
  {
    if slots != [] {
      var n := |slots| - 1;
      KeysAreAsMany(slots[..n], connections);
      assert forall i :: 0 <= i < n ==> slots[..n][i] == slots[i];
      assert KeysListed(slots) == KeysListed(slots[..n]) + {Key(slots[n].conn)};
      assert forall i :: 0 <= i < n ==> Ref(slots[i].conn) in slots && Ref(slots[n].conn) in slots;
      assert Key(slots[n].conn) !in KeysListed(slots[..n]);
    }
  }

  /** The registered connections of the listed users, by key. */
  ghost function KeysOf(r: Reg, ids: seq<string>): set<string>
  {
    set k | k in r.connections && r.connections[k].conn.user != "" && r.connections[k].conn.user in ids
  }

  lemma MatchedCount(r: Reg, slots: seq<Slot>, ids: seq<string>)
    requires KeysMatch(r.connections, r.nextSerial) && Listing(slots)
    requires forall c :: Ref(c) in slots <==> OfUser(r, c, ids)
    ensures |slots| == |KeysOf(r, ids)|
  {
    KeysAreAsMany(slots, r.connections);
    forall k ensures k in KeysOf(r, ids) <==> k in KeysListed(slots) {
      if k in KeysOf(r, ids) {
        assert OfUser(r, r.connections[k].conn, ids);
        var i :| 0 <= i < |slots| && slots[i] == Ref(r.connections[k].conn);
      }
      if k in KeysListed(slots) {
        var i :| 0 <= i < |slots| && k == Key(slots[i].conn);
        assert Ref(slots[i].conn) in slots;
      }
    }
    assert KeysOf(r, ids) == KeysListed(slots);
  }

  /**
   What surrounds every batch to users: the snapshot is taken, its length is Matched, and in the end it is released.
   Matched is the number of registered connections of those users; the pool gets back the very array it lent, and keeps
   no connection alive.
   */
  method MatchUsers(reg: ConnectionRegistry, pool: ConnectionSlicePool, ids: seq<string>) returns (matched: nat)
    requires Valid(reg.State()) && pool.Valid()
    modifies pool, pool.free
    ensures matched == |KeysOf(reg.State(), ids)|
    ensures pool.Valid() && pool.lent == old(pool.lent)
    ensures forall a :: a in old(pool.lent) ==> a[..] == old(a[..])
  {
    var s := UserSnapshotPooled(reg, pool, ids);
    matched := s.Len();
    MatchedCount(reg.State(), s.Slots(), ids);
    pool.PutConnectionSlice(s);
  }
}
