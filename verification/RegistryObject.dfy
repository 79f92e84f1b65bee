/** The registry as an object: the methods of registry.go on its maps, with their loops. */
module RegistryObject {
  import opened Registry

  ghost predicate Distinct<T>(s: seq<T>)
  {
    forall i, j :: 0 <= i < j < |s| ==> s[i] != s[j]
  }

  lemma DistinctAppend<T>(s: seq<T>, x: T)
    requires Distinct(s) && x !in s
    ensures Distinct(s + [x])
  {
  }

  /** A set of connections filed under their own keys, as both indexes keep them. */
  ghost predicate Filed(m: map<string, Conn>)
  {
    forall k :: k in m ==> Key(m[k]) == k
  }

  /** Sum of the set sizes of the listed users, repeats counted again. */
  function Total(users: Index, ids: seq<string>): nat
  {
    if ids == [] then 0
    else Total(users, ids[..|ids| - 1]) + |SetOf(users, ids[|ids| - 1])|
  }

  /** `c` is registered and belongs to one of the listed users. */
  ghost predicate OfUser(r: Reg, c: Conn, ids: seq<string>)
  {
    Holds(r, c) && c.user != "" && c.user in ids
  }

  /** `c` lies in the set `m` under its own key. */
  predicate Member(m: map<string, Conn>, c: Conn)
  {
    Key(c) in m && m[Key(c)] == c
  }

  /** The set of a user holds exactly that user's registered connections. */
  lemma UserSetMembers(r: Reg, id: string)
    requires Valid(r)
    ensures Filed(SetOf(r.users, id)) && (id == "" ==> SetOf(r.users, id) == map[])
    ensures forall c :: Member(SetOf(r.users, id), c) <==> OfUser(r, c, [id])
    ensures forall k :: k in SetOf(r.users, id) ==> k in r.connections && r.connections[k].conn == SetOf(r.users, id)[k]
  {
    var m := SetOf(r.users, id);
    forall k | k in m
      ensures Key(m[k]) == k && k in r.connections && r.connections[k].conn == m[k] && m[k].user == id && id != ""
    {
      assert In(r.users, id, k);
    }
    forall c ensures Member(m, c) <==> OfUser(r, c, [id]) {
      if OfUser(r, c, [id]) {
        assert id in UserTags(r.connections[Key(c)]);
        assert In(r.users, id, Key(c));
      }
    }
  }

  class ConnectionRegistry {
    var connections: map<string, Entry>
    var users: Index
    var groups: Index
    var nextSerial: nat

    ghost function State(): Reg
      reads this
    {
      Reg(connections, users, groups, nextSerial)
    }

    constructor ()
      ensures State() == EMPTY && Valid(State())
    {
      connections, users, groups, nextSerial := map[], map[], map[], 0;
    }

    method AddConnection(c: Conn, now: int)
      modifies this
      ensures State() == Add(old(State()), c, now)
    {
      var key := Key(c);
      connections := connections[key := Entry(nextSerial, c, now, {})];
      if c.user != "" {
        users := users[c.user := SetOf(users, c.user)[key := c]];
      }
      nextSerial := nextSerial + 1;
    }

    /** Deletes `key` from the sets of all given groups, one at a time. */
    method LeaveSets(labels: set<string>, key: string)
      modifies `groups
      ensures groups == DeleteAll(old(groups), labels, key)
    {
      var todo := labels;
      assert DeleteAll(groups, {}, key) == groups;
      while todo != {}
        invariant todo <= labels && groups == DeleteAll(old(groups), labels - todo, key)
        decreases |todo|
      {
        var g :| g in todo;
        DeleteAllStep(old(groups), labels - todo, g, key);
        assert labels - (todo - {g}) == labels - todo + {g};
        groups := Delete(groups, g, key);
        todo := todo - {g};
      }
      assert labels - {} == labels;
    }

    /** The deletion shared by `remove` and `expired`. */
    method DeleteEntry(key: string)
      requires key in connections
      modifies this
      ensures State() == Forget(old(State()), key)
    {
      var entry := connections[key];
      connections := connections - {key};
      if entry.conn.user != "" {
        DeleteIsDeleteAll(users, entry.conn.user, key);
        users := Delete(users, entry.conn.user, key);
      } else {
        assert DeleteAll(users, {}, key) == users;
      }
      LeaveSets(entry.groups, key);
    }

    method RemoveConnection(c: Conn) returns (removed: bool)
      modifies this
      ensures removed == Holds(old(State()), c) && State() == Remove(old(State()), c)
    {
      var key := Key(c);
      if key !in connections || connections[key].conn != c {
        return false;
      }
      DeleteEntry(key);
      return true;
    }

    method JoinGroup(c: Conn, name: string) returns (outcome: Outcome)
      modifies this
      ensures State() == AddToGroup(old(State()), c, NormalizeGroup(name))
      ensures outcome == InvalidGroup <==> Blank(name)
      ensures !Blank(name) ==> outcome == if Holds(old(State()), c) then Done else NotFound
    {
      ghost var i, j := NormalizedGroup(name);
      var group := NormalizeGroup(name);
      if group == "" {
        return InvalidGroup;
      }
      var key := Key(c);
      if key !in connections || connections[key].conn != c {
        return NotFound;
      }
      connections := connections[key := connections[key].(groups := connections[key].groups + {group})];
      groups := groups[group := SetOf(groups, group)[key := c]];
      return Done;
    }

    method LeaveGroup(c: Conn, name: string) returns (outcome: Outcome)
      modifies this
      ensures State() == RemoveFromGroup(old(State()), c, NormalizeGroup(name))
      ensures outcome == InvalidGroup <==> Blank(name)
      ensures !Blank(name) ==> outcome == if Holds(old(State()), c) then Done else NotFound
    {
      ghost var i, j := NormalizedGroup(name);
      var group := NormalizeGroup(name);
      if group == "" {
        return InvalidGroup;
      }
      var key := Key(c);
      if key !in connections || connections[key].conn != c {
        return NotFound;
      }
      connections := connections[key := connections[key].(groups := connections[key].groups - {group})];
      groups := Delete(groups, group, key);
      return Done;
    }

    method LeaveAllGroups(c: Conn)
      modifies this
      ensures State() == RemoveFromAllGroups(old(State()), c)
    {
      var key := Key(c);
      if key !in connections {
        return;
      }
      LeaveSets(connections[key].groups, key);
      connections := connections[key := connections[key].(groups := {})];
    }

    method TouchConnection(c: Conn, now: int)
      modifies this
      ensures State() == Touch(old(State()), c, now)
    {
      var key := Key(c);
      if key in connections && connections[key].conn == c {
        connections := connections[key := connections[key].(lastSeen := now)];
      }
    }

    // ---- snapshots --------------------------------------------------------------------

    /** `connectionSnapshot`: exactly the registered connections with a listed key, each once. */
    method ConnectionSnapshot(ids: seq<string>) returns (result: seq<Conn>)
      requires KeysMatch(connections, nextSerial)
      ensures Distinct(result) && |result| <= |ids|
      ensures forall c :: c in result <==> Holds(State(), c) && Key(c) in ids
    {
      result := [];
      if |ids| == 0 {
        return;
      }
      if |ids| == 1 {
        var id := ids[0];
        if id == "" || id !in connections {
          return;
        }
        return [connections[id].conn];
      }
      var seen: set<string> := {};
      for i := 0 to |ids|
        invariant Distinct(result) && |result| <= i
        invariant forall k :: k in seen <==> k in ids[..i] && k != ""
        invariant forall c :: c in result <==> Holds(State(), c) && Key(c) in ids[..i]
      {
        var id := ids[i];
        assert ids[..i + 1] == ids[..i] + [id];
        if id == "" || id in seen {
          continue;
        }
        seen := seen + {id};
        if id in connections {
          DistinctAppend(result, connections[id].conn);
          result := result + [connections[id].conn];
        }
      }
      assert ids[..|ids|] == ids;
    }

    /** `allConnections`: every registered connection, once. */
    method AllConnections() returns (result: seq<Conn>)
      requires KeysMatch(connections, nextSerial)
      ensures Distinct(result) && |result| == |connections|
      ensures forall c :: c in result <==> Holds(State(), c)
    {
      var m := map k | k in connections :: connections[k].conn;
      assert m.Keys == connections.Keys;
      assert |m| == |m.Keys| && |connections| == |connections.Keys|;
      result := CopyConnectionSet(m);
      assert forall c :: Member(m, c) <==> Holds(State(), c);
    }

    /** `userOnline`: the size of the user's set is the number of that user's registered connections. */
    method UserOnline(id: string) returns (n: nat)
      requires Valid(State())
      ensures n == if id == "" then 0 else |set k | k in connections && connections[k].conn.user == id|
    {
      UserSetMembers(State(), id);
      var mine := set k | k in connections && connections[k].conn.user == id;
      n := |SetOf(users, id)|;
      if id == "" {
        return;
      }
      forall k ensures k in mine <==> k in SetOf(users, id).Keys {
        if k in mine {
          assert OfUser(State(), connections[k].conn, [id]);
          assert Member(SetOf(users, id), connections[k].conn);
        }
        if k in SetOf(users, id) {
          assert Member(SetOf(users, id), connections[k].conn);
        }
      }
      assert SetOf(users, id).Keys == mine;
      assert |SetOf(users, id).Keys| == |SetOf(users, id)|;
    }

    /** `groupOnline`: likewise for a group. */
    method GroupOnline(group: string) returns (n: nat)
      requires Valid(State())
      ensures n == |set k | k in connections && group in connections[k].groups|
    {
      var mine := set k | k in connections && group in connections[k].groups;
      n := |SetOf(groups, group)|;
      forall k ensures k in mine <==> k in SetOf(groups, group).Keys {
        assert In(groups, group, k) <==> k in connections && group in GroupTags(connections[k]);
      }
      assert SetOf(groups, group).Keys == mine;
      assert |SetOf(groups, group).Keys| == |SetOf(groups, group)|;
    }

    /** `copyConnectionSet`. */
    static method CopyConnectionSet(m: map<string, Conn>) returns (result: seq<Conn>)
      requires Filed(m)
      ensures Distinct(result) && |result| == |m|
      ensures forall c :: c in result <==> Member(m, c)
    {
      var seen;
      result, seen := AppendUnseen(m, [], {});
    }

    /** The `Range` callback of `userSnapshot`, over one user's set in any order. */
    static method AppendUnseen(m: map<string, Conn>, before: seq<Conn>, seenBefore: set<string>)
      returns (result: seq<Conn>, seen: set<string>)
      requires Filed(m) && Distinct(before)
      requires forall c :: c in before ==> Key(c) in seenBefore
      ensures Distinct(result) && |result| <= |before| + |m|
      ensures seenBefore == {} && before == [] ==> |result| == |m|
      ensures forall c :: c in result <==> c in before || (Member(m, c) && Key(c) !in seenBefore)
      ensures seen == seenBefore + m.Keys
    {
      result, seen := before, seenBefore;
      var todo := m.Keys;
      assert |m.Keys| == |m|;
      while todo != {}
        invariant todo <= m.Keys && Distinct(result) && |result| + |todo| <= |before| + |m|
        invariant seenBefore == {} && before == [] ==> |result| + |todo| == |m|
        invariant seen == seenBefore + (m.Keys - todo)
        invariant forall c :: c in result <==>
                    c in before || (Member(m, c) && Key(c) !in seenBefore && Key(c) !in todo)
        decreases |todo|
      {
        var key :| key in todo;
        todo := todo - {key};
        if key !in seen {
          assert m[key] !in result;
          DistinctAppend(result, m[key]);
          seen := seen + {key};
          result := result + [m[key]];
        }
      }
    }

    /** `userSnapshot`: exactly the registered connections of the listed users, each once, within the reserved total. */
    method UserSnapshot(ids: seq<string>) returns (result: seq<Conn>, total: nat)
      requires Valid(State())
      ensures Distinct(result) && |result| <= total == Total(users, ids)
      ensures forall c :: c in result <==> OfUser(State(), c, ids)
    {
      if |ids| == 1 {
        result, total := OneUser(ids[0]);
        assert ids == [ids[0]] && ids[..0] == [];
        return;
      }
      total := CountUsers(ids);
      if total == 0 {
        NobodyThere(State(), ids);
        return [], 0;
      }
      result := ManyUsers(ids);
    }

    /** The path for a single id. */
    method OneUser(id: string) returns (result: seq<Conn>, total: nat)
      requires Valid(State())
      ensures Distinct(result) && |result| <= total == |SetOf(users, id)|
      ensures forall c :: c in result <==> OfUser(State(), c, [id])
    {
      UserSetMembers(State(), id);
      result, total := [], |SetOf(users, id)|;
      if id != "" && id in users {
        result := CopyConnectionSet(users[id]);
      } else {
        assert SetOf(users, id) == map[];
        assert forall c :: !Member(SetOf(users, id), c);
      }
    }

    /** The general path, with repeated, blank and unknown ids. */
    method ManyUsers(ids: seq<string>) returns (result: seq<Conn>)
      requires Valid(State())
      ensures Distinct(result) && |result| <= Total(users, ids)
      ensures forall c :: c in result <==> OfUser(State(), c, ids)
    {
      result := [];
      var seen: set<string> := {};
      for i := 0 to |ids|
        invariant Distinct(result) && |result| <= Total(users, ids[..i])
        invariant forall c :: c in result <==> OfUser(State(), c, ids[..i])
        invariant forall k :: k in seen <==> k in connections && connections[k].conn in result
      {
        var id := ids[i];
        assert ids[..i + 1] == ids[..i] + [id] && ids[..i + 1][..i] == ids[..i];
        UserSetMembers(State(), id);
        assert forall c :: OfUser(State(), c, ids[..i + 1]) <==>
                 OfUser(State(), c, ids[..i]) || Member(SetOf(users, id), c);
        if id != "" && id in users {
          result, seen := AppendUnseen(users[id], result, seen);
        }
      }
      assert ids[..|ids|] == ids;
    }

    /** The first pass of `userSnapshot`. */
    method CountUsers(ids: seq<string>) returns (total: nat)
      requires Valid(State())
      ensures total == Total(users, ids)
    {
      total := 0;
      for i := 0 to |ids|
        invariant total == Total(users, ids[..i])
      {
        assert ids[..i + 1][..i] == ids[..i];
        UserSetMembers(State(), ids[i]);
        if ids[i] != "" && ids[i] in users {
          total := total + |users[ids[i]]|;
        }
      }
      assert ids[..|ids|] == ids;
    }

    // ---- expiry without interference --------------------------------------------------

    /** The scan of `expired`: the keys of the idle entries, in any order. */
    method ScanIdle(deadline: int) returns (keys: seq<string>)
      ensures Distinct(keys)
      ensures forall k :: k in keys <==> k in connections && connections[k].lastSeen < deadline
    {
      keys := [];
      var todo := connections.Keys;
      while todo != {}
        invariant todo <= connections.Keys && Distinct(keys)
        invariant forall k :: k in keys <==> k in connections && k !in todo && connections[k].lastSeen < deadline
        decreases |todo|
      {
        var key :| key in todo;
        todo := todo - {key};
        if connections[key].lastSeen < deadline {
          DistinctAppend(keys, key);
          keys := keys + [key];
        }
      }
    }

    /** `expired` when nothing interferes: exactly the idle connections leave, each reported once. */
    method Expired(now: int, timeout: int) returns (evicted: seq<Conn>)
      requires Valid(State())
      modifies this
      ensures Valid(State()) && Distinct(evicted)
      ensures timeout <= 0 ==> evicted == [] && State() == old(State())
      ensures timeout > 0 ==>
                connections == map k | k in old(connections) && old(connections)[k].lastSeen >= now - timeout
                                 :: old(connections)[k]
      ensures timeout > 0 ==> forall c :: c in evicted <==>
                Holds(old(State()), c) && old(connections)[Key(c)].lastSeen < now - timeout
    {
      evicted := [];
      if timeout <= 0 {
        return;
      }
      var deadline := now - timeout;
      var keys := ScanIdle(deadline);
      ghost var before := connections;
      for i := 0 to |keys|
        invariant Valid(State()) && Distinct(evicted)
        invariant forall k :: k in connections <==> k in before && k !in keys[..i]
        invariant forall k :: k in connections ==> connections[k] == before[k]
        invariant forall c :: c in evicted <==> Key(c) in keys[..i] && before[Key(c)].conn == c
      {
        var key := keys[i];
        assert keys[..i + 1] == keys[..i] + [key];
        assert key in connections && connections[key].lastSeen < deadline;
        var entry := connections[key];
        ForgetKeepsValid(State(), key);
        DeleteEntry(key);
        DistinctAppend(evicted, entry.conn);
        evicted := evicted + [entry.conn];
      }
      assert keys[..|keys|] == keys;
    }
  }

  lemma {:induction false} ZeroTotal(users: Index, ids: seq<string>)
    requires Total(users, ids) == 0
    ensures forall id :: id in ids ==> |SetOf(users, id)| == 0
  {
    if ids != [] {
      var n := |ids| - 1;
      ZeroTotal(users, ids[..n]);
      assert ids == ids[..n] + [ids[n]];
    }
  }

  lemma NobodyThere(r: Reg, ids: seq<string>)
    requires Valid(r) && Total(r.users, ids) == 0
    ensures forall c :: !OfUser(r, c, ids)
  {
    ZeroTotal(r.users, ids);
    forall c ensures !OfUser(r, c, ids) {
      if c.user in ids {
        UserSetMembers(r, c.user);
        assert SetOf(r.users, c.user) == map[];
        assert !Member(SetOf(r.users, c.user), c);
      }
    }
  }
}
