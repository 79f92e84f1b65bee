/**
 The connection registry (registry.go): a primary map from connection key to entry, and inverted indexes
 from user and from group to sets of connections. Sharding is left out: a sharded map is a map. Each operation
 is one atomic step, except the expiry sweep, which module RegistrySweep splits.
 */
module Registry {

  /** A connection pointer: `handle` is its identity. */
  datatype Conn = Conn(handle: nat, id: string, user: string)

  /** A registry entry; `serial` is its identity, so that a later entry under the same key can be told apart. */
  datatype Entry = Entry(serial: nat, conn: Conn, lastSeen: int, groups: set<string>)

  type Index = map<string, map<string, Conn>>

  datatype Reg = Reg(connections: map<string, Entry>, users: Index, groups: Index, nextSerial: nat)

  datatype Outcome = Done | InvalidGroup | NotFound

  function Hex(n: nat): string
  {
    (if n < 16 then [] else Hex(n / 16)) + ["0123456789abcdef"[n % 16]]
  }

  /** `connectionKey`: the id, or the printed pointer of a connection without one. */
  function Key(c: Conn): string
  {
    if c.id == "" then "0x" + Hex(c.handle) else c.id
  }

  function DigitValue(d: char): int
  {
    if '0' <= d <= '9' then d as int - '0' as int else d as int - 'a' as int + 10
  }

  /** The number that hexadecimal digits spell. */
  function Spelled(digits: string): int
  {
    if digits == "" then 0
    else 16 * Spelled(digits[..|digits| - 1]) + DigitValue(digits[|digits| - 1])
  }

  lemma DigitsCount(m: nat)
    requires m < 16
    ensures DigitValue("0123456789abcdef"[m]) == m
  {
  }

  lemma SpelledAppend(digits: string, d: char)
    ensures Spelled(digits + [d]) == 16 * Spelled(digits) + DigitValue(d)
  {
    assert (digits + [d])[..|digits|] == digits;
  }

  /** A printed handle spells the handle. */
  lemma {:induction false} HexSpells(n: nat)
    ensures Spelled(Hex(n)) == n
  {
    DigitsCount(n % 16);
    SpelledAppend(if n < 16 then [] else Hex(n / 16), "0123456789abcdef"[n % 16]);
    if n >= 16 {
      HexSpells(n / 16);
    }
  }

  /** Two connections without an id never share a key: the key of each is its own handle behind "0x". */
  lemma AnonymousKeysDiffer(c: Conn, d: Conn)
    requires c.id == "" && d.id == "" && Key(c) == Key(d)
    ensures c.handle == d.handle && Key(c)[..2] == "0x"
  {
    HexSpells(c.handle);
    HexSpells(d.handle);
    assert Key(c)[2..] == Hex(c.handle) && Key(d)[2..] == Hex(d.handle);
  }

  /** The characters `strings.TrimSpace` drops: Unicode's White_Space. */
  predicate IsSpace(ch: char)
  {
    || '\t' <= ch <= '\r' || ch == ' ' || ch == '\U{85}' || ch == '\U{A0}' || ch == '\U{1680}'
    || '\U{2000}' <= ch <= '\U{200A}' || ch == '\U{2028}' || ch == '\U{2029}' || ch == '\U{202F}'
    || ch == '\U{205F}' || ch == '\U{3000}'
  }

  /** By code point: tab to carriage return, space, next line, no-break space, and the Unicode spaces and separators. */
  lemma SpacesByCodePoint(ch: char)
    ensures var n := ch as int;
            IsSpace(ch) <==>
              || 9 <= n <= 13 || n == 32 || n == 133 || n == 160 || n == 5760
              || 8192 <= n <= 8202 || n == 8232 || n == 8233 || n == 8239 || n == 8287 || n == 12288
  {
  }

  predicate Blank(s: string)
  {
    forall i :: 0 <= i < |s| ==> IsSpace(s[i])
  }

  /** `normalizeGroup`. */
  function NormalizeGroup(name: string): string
  {
    if name == "" then ""
    else if IsSpace(name[0]) then NormalizeGroup(name[1..])
    else if IsSpace(name[|name| - 1]) then NormalizeGroup(name[..|name| - 1])
    else name
  }

  /** `name[i..j]` is `name` without the blanks around it. */
  ghost predicate Core(name: string, i: nat, j: nat)
  {
    && i <= j <= |name|
    && (forall k :: 0 <= k < i || j <= k < |name| ==> IsSpace(name[k]))
    && (i < j ==> !IsSpace(name[i]) && !IsSpace(name[j - 1]))
    && (i == j <==> Blank(name))
  }

  lemma CoreBehindBlank(name: string, i: nat, j: nat)
    requires name != "" && IsSpace(name[0]) && Core(name[1..], i, j)
    ensures Core(name, i + 1, j + 1)
  {
    forall k | 0 <= k < i + 1 || j + 1 <= k < |name| ensures IsSpace(name[k]) {
      assert k > 0 ==> name[k] == name[1..][k - 1];
    }
    if i < j {
      assert name[i + 1] == name[1..][i];
    }
  }

  lemma CoreBeforeBlank(name: string, i: nat, j: nat)
    requires name != "" && IsSpace(name[|name| - 1]) && Core(name[..|name| - 1], i, j)
    ensures Core(name, i, j)
  {
    var n := |name| - 1;
    forall k | 0 <= k < i || j <= k < |name| ensures IsSpace(name[k]) {
      assert k < n ==> name[k] == name[..n][k];
    }
  }

  /** What is left begins and ends with a visible character, and only blanks are cut off around it. */
  lemma {:induction false} NormalizedGroup(name: string) returns (i: nat, j: nat)
    ensures Core(name, i, j) && NormalizeGroup(name) == name[i..j]
    ensures NormalizeGroup(name) == "" <==> Blank(name)
  {
    if name == "" {
      return 0, 0;
    }
    var n := |name| - 1;
    if IsSpace(name[0]) {
      i, j := NormalizedGroup(name[1..]);
      CoreBehindBlank(name, i, j);
      assert name[1..][i..j] == name[i + 1..j + 1];
      i, j := i + 1, j + 1;
    } else if IsSpace(name[n]) {
      i, j := NormalizedGroup(name[..n]);
      CoreBeforeBlank(name, i, j);
    } else {
      i, j := 0, |name|;
    }
  }

  const EMPTY := Reg(map[], map[], map[], 0)

  // ---- index sets ---------------------------------------------------------------------

  function SetOf(ix: Index, tag: string): map<string, Conn>
  {
    if tag in ix then ix[tag] else map[]
  }

  /** `connectionSetFor(...).Set`: the set is created when it is missing. */
  function Insert(ix: Index, tag: string, key: string, c: Conn): Index
  {
    ix[tag := SetOf(ix, tag)[key := c]]
  }

  /** `removeConnectionFromIndex`: a set that becomes empty is dropped. */
  function Delete(ix: Index, tag: string, key: string): Index
  {
    if tag !in ix then ix
    else if ix[tag] - {key} == map[] then ix - {tag}
    else ix[tag := ix[tag] - {key}]
  }

  /** Deleting the key from the sets of several tags, in any order. */
  function DeleteAll(ix: Index, tags: set<string>, key: string): Index
  {
    map l | l in ix && (l in tags ==> ix[l] - {key} != map[]) :: if l in tags then ix[l] - {key} else ix[l]
  }

  lemma DeleteAllStep(ix: Index, tags: set<string>, tag: string, key: string)
    requires tag !in tags
    ensures Delete(DeleteAll(ix, tags, key), tag, key) == DeleteAll(ix, tags + {tag}, key)
  {
  }

  lemma DeleteIsDeleteAll(ix: Index, tag: string, key: string)
    ensures Delete(ix, tag, key) == DeleteAll(ix, {tag}, key)
  {
    assert DeleteAll(ix, {}, key) == ix;
    DeleteAllStep(ix, {}, tag, key);
    assert {} + {tag} == {tag};
  }

  // ---- the operations -----------------------------------------------------------------

  predicate Holds(r: Reg, c: Conn)
  {
    Key(c) in r.connections && r.connections[Key(c)].conn == c
  }

  function UserTags(e: Entry): set<string>
  {
    if e.conn.user == "" then {} else {e.conn.user}
  }

  function GroupTags(e: Entry): set<string>
  {
    e.groups
  }

  function Add(r: Reg, c: Conn, now: int): Reg
  {
    var entry := Entry(r.nextSerial, c, now, {});
    Reg(r.connections[Key(c) := entry],
        if c.user != "" then Insert(r.users, c.user, Key(c), c) else r.users,
        r.groups,
        r.nextSerial + 1)
  }

  /** Deletes the entry under `key` together with its traces in both indexes. */
  function Forget(r: Reg, key: string): Reg
    requires key in r.connections
  {
    var e := r.connections[key];
    r.(connections := r.connections - {key},
       users := DeleteAll(r.users, UserTags(e), key),
       groups := DeleteAll(r.groups, GroupTags(e), key))
  }

  function Remove(r: Reg, c: Conn): Reg
  {
    if Holds(r, c) then Forget(r, Key(c)) else r
  }

  function Regroup(r: Reg, key: string, groups: set<string>): map<string, Entry>
    requires key in r.connections
  {
    r.connections[key := r.connections[key].(groups := groups)]
  }

  function AddToGroup(r: Reg, c: Conn, group: string): Reg
  {
    if group == "" || !Holds(r, c) then r
    else
      var key := Key(c);
      r.(connections := Regroup(r, key, r.connections[key].groups + {group}), groups := Insert(r.groups, group, key, c))
  }

  function RemoveFromGroup(r: Reg, c: Conn, group: string): Reg
  {
    if group == "" || !Holds(r, c) then r
    else
      var key := Key(c);
      r.(connections := Regroup(r, key, r.connections[key].groups - {group}), groups := Delete(r.groups, group, key))
  }

  /** Unlike its siblings this one does not compare the connection, only the key. */
  function RemoveFromAllGroups(r: Reg, c: Conn): Reg
  {
    var key := Key(c);
    if key !in r.connections then r
    else r.(connections := Regroup(r, key, {}), groups := DeleteAll(r.groups, r.connections[key].groups, key))
  }

  function Touch(r: Reg, c: Conn, now: int): Reg
  {
    if Holds(r, c) then r.(connections := r.connections[Key(c) := r.connections[Key(c)].(lastSeen := now)]) else r
  }

  /** An entry that the scan of an expiry sweep has found idle: its key and its identity. */
  datatype Target = Target(key: string, serial: nat)

  /** The re-check of the sweep: the entry is still the current one under its key and still idle. */
  predicate Evictable(r: Reg, target: Target, deadline: int)
  {
    && target.key in r.connections
    && r.connections[target.key].serial == target.serial
    && r.connections[target.key].lastSeen < deadline
  }

  /** One locked step of `expired`. */
  function Evict(r: Reg, target: Target, deadline: int): Reg
  {
    if Evictable(r, target, deadline) then Forget(r, target.key) else r
  }

  // ---- agreement ----------------------------------------------------------------------

  predicate In(ix: Index, tag: string, key: string)
  {
    tag in ix && key in ix[tag]
  }

  /** The index holds exactly the registered connections under their tags, and no empty set. */
  ghost predicate Agrees(ix: Index, connections: map<string, Entry>, tags: Entry -> set<string>)
  {
    && (forall l, k :: In(ix, l, k) <==> k in connections && l in tags(connections[k]))
    && (forall l, k :: In(ix, l, k) ==> ix[l][k] == connections[k].conn)
    && (forall l :: l in ix ==> ix[l] != map[])
  }

  ghost predicate KeysMatch(connections: map<string, Entry>, nextSerial: nat)
  {
    forall k :: k in connections ==> Key(connections[k].conn) == k && connections[k].serial < nextSerial
  }

  ghost predicate Valid(r: Reg)
  {
    && KeysMatch(r.connections, r.nextSerial)
    && Agrees(r.users, r.connections, UserTags)
    && Agrees(r.groups, r.connections, GroupTags)
  }

  lemma AgreementIncludes(ix: Index, jx: Index, connections: map<string, Entry>, tags: Entry -> set<string>, l: string)
    requires Agrees(ix, connections, tags) && Agrees(jx, connections, tags) && l in ix
    ensures l in jx && ix[l] == jx[l]
  {
    var k0 :| k0 in ix[l];
    assert In(ix, l, k0) && In(jx, l, k0);
    forall k ensures k in ix[l] <==> k in jx[l]
      ensures k in ix[l] ==> ix[l][k] == jx[l][k]
    {
      assert In(ix, l, k) <==> In(jx, l, k);
    }
    assert ix[l] == jx[l];
  }

  /** Agreement leaves no freedom: the index is a function of the primary map. */
  lemma AgreementDetermines(ix: Index, jx: Index, connections: map<string, Entry>, tags: Entry -> set<string>)
    requires Agrees(ix, connections, tags) && Agrees(jx, connections, tags)
    ensures ix == jx
  {
    forall l | l in ix ensures l in jx && ix[l] == jx[l] {
      AgreementIncludes(ix, jx, connections, tags, l);
    }
    forall l | l in jx ensures l in ix {
      AgreementIncludes(jx, ix, connections, tags, l);
    }
  }

  lemma DeleteAllIn(ix: Index, tags: set<string>, key: string, l: string, k: string)
    ensures In(DeleteAll(ix, tags, key), l, k) <==> In(ix, l, k) && !(l in tags && k == key)
    ensures In(DeleteAll(ix, tags, key), l, k) ==> DeleteAll(ix, tags, key)[l][k] == ix[l][k]
  {
    if In(ix, l, k) && l in tags && k != key {
      assert k in ix[l] - {key};
    }
  }

  /** Dropping tags of one entry, or the entry itself. */
  lemma DeleteAllAgrees(ix: Index, before: map<string, Entry>, after: map<string, Entry>, tags: Entry -> set<string>,
                        dropped: set<string>, key: string)
    requires Agrees(ix, before, tags) && key in before
    requires after - {key} == before - {key}
    requires key in after ==> after[key].conn == before[key].conn && tags(after[key]) == tags(before[key]) - dropped
    requires key !in after ==> tags(before[key]) <= dropped
    ensures Agrees(DeleteAll(ix, dropped, key), after, tags)
  {
    var jx := DeleteAll(ix, dropped, key);
    forall l, k ensures In(jx, l, k) <==> k in after && l in tags(after[k])
      ensures In(jx, l, k) ==> jx[l][k] == after[k].conn
    {
      DeleteAllIn(ix, dropped, key, l, k);
      if k != key {
        assert k in after - {key} <==> k in before - {key};
        assert k in after ==> (after - {key})[k] == (before - {key})[k];
      }
    }
  }

  /** Adding one tag to the entry under `key`, or adding the entry with that one tag. */
  lemma InsertAgrees(ix: Index, before: map<string, Entry>, after: map<string, Entry>, tags: Entry -> set<string>,
                     tag: string, key: string)
    requires Agrees(ix, before, tags)
    requires key in after && after - {key} == before - {key}
    requires key in before ==> tags(after[key]) == tags(before[key]) + {tag} && after[key].conn == before[key].conn
    requires key !in before ==> tags(after[key]) == {tag}
    ensures Agrees(Insert(ix, tag, key, after[key].conn), after, tags)
  {
    var jx := Insert(ix, tag, key, after[key].conn);
    forall l, k ensures In(jx, l, k) <==> k in after && l in tags(after[k])
      ensures In(jx, l, k) ==> jx[l][k] == after[k].conn
    {
      assert In(jx, l, k) <==> In(ix, l, k) || (l == tag && k == key);
      if k != key {
        assert k in after - {key} <==> k in before - {key};
        assert k in after ==> (after - {key})[k] == (before - {key})[k];
      }
    }
  }

  /** An entry that gets no tag of this kind, or keeps those it has. */
  lemma SameTagsAgree(ix: Index, before: map<string, Entry>, after: map<string, Entry>, tags: Entry -> set<string>,
                      key: string)
    requires Agrees(ix, before, tags)
    requires key in after && after - {key} == before - {key}
    requires key in before ==> after[key].conn == before[key].conn && tags(after[key]) == tags(before[key])
    requires key !in before ==> tags(after[key]) == {}
    ensures Agrees(ix, after, tags)
  {
    forall l, k ensures In(ix, l, k) <==> k in after && l in tags(after[k])
      ensures In(ix, l, k) ==> ix[l][k] == after[k].conn
    {
      if k != key {
        assert k in after - {key} <==> k in before - {key};
        assert k in after ==> (after - {key})[k] == (before - {key})[k];
      }
    }
  }

  lemma ForgetKeepsValid(r: Reg, key: string)
    requires Valid(r) && key in r.connections
    ensures Valid(Forget(r, key))
  {
    var e := r.connections[key];
    var after := r.connections - {key};
    DeleteAllAgrees(r.users, r.connections, after, UserTags, UserTags(e), key);
    DeleteAllAgrees(r.groups, r.connections, after, GroupTags, GroupTags(e), key);
  }

  lemma RemoveKeepsValid(r: Reg, c: Conn)
    requires Valid(r)
    ensures Valid(Remove(r, c)) && !Holds(Remove(r, c), c)
  {
    if Holds(r, c) {
      ForgetKeepsValid(r, Key(c));
    }
  }

  lemma AddToGroupKeepsValid(r: Reg, c: Conn, group: string)
    requires Valid(r)
    ensures Valid(AddToGroup(r, c, group))
  {
    if group != "" && Holds(r, c) {
      var after := AddToGroup(r, c, group).connections;
      SameTagsAgree(r.users, r.connections, after, UserTags, Key(c));
      InsertAgrees(r.groups, r.connections, after, GroupTags, group, Key(c));
    }
  }

  lemma RemoveFromGroupKeepsValid(r: Reg, c: Conn, group: string)
    requires Valid(r)
    ensures Valid(RemoveFromGroup(r, c, group))
  {
    if group != "" && Holds(r, c) {
      var after := RemoveFromGroup(r, c, group).connections;
      SameTagsAgree(r.users, r.connections, after, UserTags, Key(c));
      DeleteIsDeleteAll(r.groups, group, Key(c));
      DeleteAllAgrees(r.groups, r.connections, after, GroupTags, {group}, Key(c));
    }
  }

  lemma RemoveFromAllGroupsKeepsValid(r: Reg, c: Conn)
    requires Valid(r)
    ensures Valid(RemoveFromAllGroups(r, c))
  {
    if Key(c) in r.connections {
      var after := RemoveFromAllGroups(r, c).connections;
      SameTagsAgree(r.users, r.connections, after, UserTags, Key(c));
      DeleteAllAgrees(r.groups, r.connections, after, GroupTags, r.connections[Key(c)].groups, Key(c));
    }
  }

  lemma TouchKeepsValid(r: Reg, c: Conn, now: int)
    requires Valid(r)
    ensures Valid(Touch(r, c, now))
  {
    if Holds(r, c) {
      var after := Touch(r, c, now).connections;
      SameTagsAgree(r.users, r.connections, after, UserTags, Key(c));
      SameTagsAgree(r.groups, r.connections, after, GroupTags, Key(c));
    }
  }

  lemma EvictKeepsValid(r: Reg, target: Target, deadline: int)
    requires Valid(r)
    ensures Valid(Evict(r, target, deadline))
  {
    if Evictable(r, target, deadline) {
      ForgetKeepsValid(r, target.key);
    }
  }

  /** What `add` overwrites under the same key leaves no trace in the indexes that the new entry would not leave. */
  predicate Overwritable(r: Reg, c: Conn)
  {
    Key(c) !in r.connections ||
    var e := r.connections[Key(c)];
    e.groups == {} && (e.conn.user == "" || e.conn.user == c.user)
  }

  /**
   `add` does not clean up after an entry it overwrites, so the indexes agree afterwards exactly when there is no such
   entry or the old one has no group and no user of its own.
   */
  lemma AddKeepsValidIff(r: Reg, c: Conn, now: int)
    requires Valid(r)
    ensures Valid(Add(r, c, now)) <==> Overwritable(r, c)
  {
    var key, t := Key(c), Add(r, c, now);
    if key !in r.connections {
      SameTagsAgree(r.groups, r.connections, t.connections, GroupTags, key);
      if c.user == "" {
        SameTagsAgree(r.users, r.connections, t.connections, UserTags, key);
      } else {
        InsertAgrees(r.users, r.connections, t.connections, UserTags, c.user, key);
      }
    } else if Overwritable(r, c) {
      OverwriteKeepsGroups(r, c, now);
      OverwriteKeepsUsers(r, c, now);
    } else {
      var e := r.connections[key];
      if g :| g in e.groups {
        assert In(r.groups, g, key) && In(t.groups, g, key);
      } else {
        assert In(r.users, e.conn.user, key) && In(t.users, e.conn.user, key);
      }
    }
  }

  lemma OverwriteKeepsGroups(r: Reg, c: Conn, now: int)
    requires Valid(r) && Key(c) in r.connections && Overwritable(r, c)
    ensures Agrees(r.groups, Add(r, c, now).connections, GroupTags)
  {
    var t := Add(r, c, now);
    forall l, k ensures In(r.groups, l, k) <==> k in t.connections && l in GroupTags(t.connections[k])
      ensures In(r.groups, l, k) ==> r.groups[l][k] == t.connections[k].conn
    {
      assert In(r.groups, l, k) <==> k in r.connections && l in GroupTags(r.connections[k]);
    }
  }

  lemma OverwriteKeepsUsers(r: Reg, c: Conn, now: int)
    requires Valid(r) && Key(c) in r.connections && Overwritable(r, c)
    ensures Agrees(Add(r, c, now).users, Add(r, c, now).connections, UserTags)
  {
    var key, t := Key(c), Add(r, c, now);
    assert c.user != "" ==> key in t.users[c.user];
    forall l, k ensures In(t.users, l, k) <==> k in t.connections && l in UserTags(t.connections[k])
      ensures In(t.users, l, k) ==> t.users[l][k] == t.connections[k].conn
    {
      assert In(r.users, l, k) <==> k in r.connections && l in UserTags(r.connections[k]);
      assert In(t.users, l, k) <==> In(r.users, l, k) || (c.user != "" && l == c.user && k == key);
    }
  }

  /**
   A second connection under a key whose first belongs to a group: the group index keeps a connection nobody registered.
   */
  lemma AddOverGroupMemberDisagrees()
    ensures exists r, c :: Valid(r) && !Valid(Add(r, c, 0))
  {
    var first, second := Conn(1, "k", ""), Conn(2, "k", "");
    EmptyIsValid();
    AddKeepsValidIff(EMPTY, first, 0);
    var r := AddToGroup(Add(EMPTY, first, 0), first, "g");
    AddToGroupKeepsValid(Add(EMPTY, first, 0), first, "g");
    assert "g" in r.connections["k"].groups;
    AddKeepsValidIff(r, second, 0);
  }

  lemma EmptyIsValid()
    ensures Valid(EMPTY)
  {
  }

  // ---- what the operations undo -------------------------------------------------------

  /** Removing a connection that was just added restores all three maps. */
  lemma AddThenRemove(r: Reg, c: Conn, now: int)
    requires Valid(r) && Key(c) !in r.connections
    ensures var t := Add(r, c, now);
            && Holds(t, c) && t.connections[Key(c)].lastSeen == now && t.connections[Key(c)].groups == {}
            && Remove(t, c) == r.(nextSerial := r.nextSerial + 1)
  {
    var t := Add(r, c, now);
    var u := Remove(t, c);
    AddKeepsValidIff(r, c, now);
    RemoveKeepsValid(t, c);
    assert u.connections == r.connections;
    AgreementDetermines(r.users, u.users, r.connections, UserTags);
    AgreementDetermines(r.groups, u.groups, r.connections, GroupTags);
  }

  /** Joining a group adds exactly one member to exactly one set, and leaving it again restores the registry. */
  lemma JoinThenLeave(r: Reg, c: Conn, group: string)
    requires Valid(r) && Holds(r, c) && group != "" && group !in r.connections[Key(c)].groups
    ensures var t := AddToGroup(r, c, group);
            && (forall g, k :: In(t.groups, g, k) <==> In(r.groups, g, k) || (g == group && k == Key(c)))
            && RemoveFromGroup(t, c, group) == r
  {
    var t := AddToGroup(r, c, group);
    var u := RemoveFromGroup(t, c, group);
    AddToGroupKeepsValid(r, c, group);
    RemoveFromGroupKeepsValid(t, c, group);
    assert r.connections[Key(c)].groups + {group} - {group} == r.connections[Key(c)].groups;
    assert u.connections == r.connections;
    AgreementDetermines(r.groups, u.groups, r.connections, GroupTags);
  }

  /** Leaving all groups takes the key out of every set and touches no other membership. */
  lemma LeaveAllLeavesAll(r: Reg, c: Conn)
    requires Valid(r)
    ensures var t := RemoveFromAllGroups(r, c);
            && t.users == r.users && t.connections.Keys == r.connections.Keys
            && forall g, k :: In(t.groups, g, k) <==> In(r.groups, g, k) && k != Key(c)
  {
    var t := RemoveFromAllGroups(r, c);
    RemoveFromAllGroupsKeepsValid(r, c);
    forall g, k ensures In(t.groups, g, k) <==> In(r.groups, g, k) && k != Key(c) {
      assert In(t.groups, g, k) <==> k in t.connections && g in GroupTags(t.connections[k]);
      assert In(r.groups, g, k) <==> k in r.connections && g in GroupTags(r.connections[k]);
    }
  }

  // ---- what the operations leave alone ------------------------------------------------

  /** Same keys, and every entry but the one under `key` unchanged; that one keeps its identity and its connection. */
  ghost predicate OnlyEntry(r: Reg, t: Reg, key: string)
  {
    && t.connections.Keys == r.connections.Keys && t.nextSerial == r.nextSerial
    && (forall k :: k in r.connections && k != key ==> t.connections[k] == r.connections[k])
    && (key in r.connections ==>
          && t.connections[key].serial == r.connections[key].serial
          && t.connections[key].conn == r.connections[key].conn)
  }

  /** Joining adds one group to one entry, if it was not there yet, and leaves the users and the clock alone. */
  lemma JoinFrame(r: Reg, c: Conn, group: string)
    requires Valid(r)
    ensures var t, key := AddToGroup(r, c, group), Key(c);
            if !Holds(r, c) || group == "" || group in r.connections[key].groups then t == r
            else
              && OnlyEntry(r, t, key) && t.users == r.users
              && t.connections[key].lastSeen == r.connections[key].lastSeen
              && t.connections[key].groups == r.connections[key].groups + {group}
  {
    if Holds(r, c) && group != "" && group in r.connections[Key(c)].groups {
      var t := AddToGroup(r, c, group);
      AddToGroupKeepsValid(r, c, group);
      assert r.connections[Key(c)].groups + {group} == r.connections[Key(c)].groups;
      assert t.connections == r.connections;
      AgreementDetermines(r.groups, t.groups, r.connections, GroupTags);
    }
  }

  /** Leaving takes one group from one entry, if it was there, and leaves the users and the clock alone. */
  lemma LeaveFrame(r: Reg, c: Conn, group: string)
    requires Valid(r)
    ensures var t, key := RemoveFromGroup(r, c, group), Key(c);
            if !Holds(r, c) || group == "" || group !in r.connections[key].groups then t == r
            else
              && OnlyEntry(r, t, key) && t.users == r.users
              && t.connections[key].lastSeen == r.connections[key].lastSeen
              && t.connections[key].groups == r.connections[key].groups - {group}
  {
    if Holds(r, c) && group != "" && group !in r.connections[Key(c)].groups {
      var t := RemoveFromGroup(r, c, group);
      RemoveFromGroupKeepsValid(r, c, group);
      assert r.connections[Key(c)].groups - {group} == r.connections[Key(c)].groups;
      assert t.connections == r.connections;
      AgreementDetermines(r.groups, t.groups, r.connections, GroupTags);
    }
  }

  /** Leaving all groups empties the groups of one entry and leaves its users and its clock alone. */
  lemma LeaveAllFrame(r: Reg, c: Conn)
    ensures var t, key := RemoveFromAllGroups(r, c), Key(c);
            if key !in r.connections then t == r
            else
              && OnlyEntry(r, t, key) && t.users == r.users
              && t.connections[key].lastSeen == r.connections[key].lastSeen && t.connections[key].groups == {}
  {
  }

  /** A touch sets the clock of the connection's own entry and nothing else. */
  lemma TouchFrame(r: Reg, c: Conn, now: int)
    ensures var t, key := Touch(r, c, now), Key(c);
            if !Holds(r, c) then t == r
            else
              && OnlyEntry(r, t, key) && t.users == r.users && t.groups == r.groups
              && t.connections[key].lastSeen == now && t.connections[key].groups == r.connections[key].groups
  {
  }

  /** Removing deletes the connection's own entry and its traces in both indexes, and nothing else. */
  lemma RemoveFrame(r: Reg, c: Conn)
    requires Valid(r)
    ensures var t, key := Remove(r, c), Key(c);
            if !Holds(r, c) then t == r
            else
              && t.connections == r.connections - {key} && t.nextSerial == r.nextSerial
              && (forall u, k :: In(t.users, u, k) <==> In(r.users, u, k) && k != key)
              && (forall g, k :: In(t.groups, g, k) <==> In(r.groups, g, k) && k != key)
  {
    if Holds(r, c) {
      var t, key := Remove(r, c), Key(c);
      RemoveKeepsValid(r, c);
      forall u, k ensures In(t.users, u, k) <==> In(r.users, u, k) && k != key {
        assert In(t.users, u, k) <==> k in t.connections && u in UserTags(t.connections[k]);
        assert In(r.users, u, k) <==> k in r.connections && u in UserTags(r.connections[k]);
      }
      forall g, k ensures In(t.groups, g, k) <==> In(r.groups, g, k) && k != key {
        assert In(t.groups, g, k) <==> k in t.connections && g in GroupTags(t.connections[k]);
        assert In(r.groups, g, k) <==> k in r.connections && g in GroupTags(r.connections[k]);
      }
    }
  }

  /** Adding under a free key adds one new entry without groups, under its user if it has one, and nothing else. */
  lemma AddFrame(r: Reg, c: Conn, now: int)
    requires Valid(r) && Key(c) !in r.connections
    ensures var t, key := Add(r, c, now), Key(c);
            && t.connections == r.connections[key := t.connections[key]] && t.groups == r.groups
            && t.connections[key].conn == c && t.connections[key].lastSeen == now && t.connections[key].groups == {}
            && (forall k :: k in r.connections ==> r.connections[k].serial != t.connections[key].serial)
            && (forall u, k :: In(t.users, u, k) <==> In(r.users, u, k) || (c.user != "" && u == c.user && k == key))
  {
  }

  // ---- any sequence of operations -----------------------------------------------------

  datatype Op =
    | AddOp(c: Conn, now: int)
    | RemoveOp(c: Conn)
    | JoinOp(c: Conn, group: string)
    | LeaveOp(c: Conn, group: string)
    | LeaveAllOp(c: Conn)
    | TouchOp(c: Conn, now: int)
    | EvictOp(target: Target, deadline: int)

  function Apply(r: Reg, op: Op): Reg
  {
    match op
    case AddOp(c, now) => Add(r, c, now)
    case RemoveOp(c) => Remove(r, c)
    case JoinOp(c, group) => AddToGroup(r, c, group)
    case LeaveOp(c, group) => RemoveFromGroup(r, c, group)
    case LeaveAllOp(c) => RemoveFromAllGroups(r, c)
    case TouchOp(c, now) => Touch(r, c, now)
    case EvictOp(target, deadline) => Evict(r, target, deadline)
  }

  /** Keys are fresh: nothing is added under a key in use. */
  predicate Fresh(r: Reg, op: Op)
  {
    op.AddOp? ==> Key(op.c) !in r.connections
  }

  lemma ApplyKeepsValid(r: Reg, op: Op)
    requires Valid(r) && Fresh(r, op)
    ensures Valid(Apply(r, op))
  {
    match op
    case AddOp(c, now) => AddKeepsValidIff(r, c, now);
    case RemoveOp(c) => RemoveKeepsValid(r, c);
    case JoinOp(c, group) => AddToGroupKeepsValid(r, c, group);
    case LeaveOp(c, group) => RemoveFromGroupKeepsValid(r, c, group);
    case LeaveAllOp(c) => RemoveFromAllGroupsKeepsValid(r, c);
    case TouchOp(c, now) => TouchKeepsValid(r, c, now);
    case EvictOp(target, deadline) => EvictKeepsValid(r, target, deadline);
  }

  function RunOps(ops: seq<Op>): Reg
  {
    if ops == [] then EMPTY else Apply(RunOps(ops[..|ops| - 1]), ops[|ops| - 1])
  }

  ghost predicate FreshRun(ops: seq<Op>)
  {
    forall i :: 0 <= i < |ops| ==> Fresh(RunOps(ops[..i]), ops[i])
  }

  /** What the operation has done to the connection it is about. */
  ghost predicate Effect(r: Reg, op: Op, t: Reg)
  {
    match op
    case AddOp(c, now) =>
      Holds(t, c) && t.connections[Key(c)].lastSeen == now && t.connections[Key(c)].groups == {}
    case RemoveOp(c) => !Holds(t, c) && (!Holds(r, c) ==> t == r)
    case JoinOp(c, group) =>
      if Holds(r, c) && group != "" then Holds(t, c) && In(t.groups, group, Key(c)) else t == r
    case LeaveOp(c, group) =>
      if Holds(r, c) && group != "" then
        Holds(t, c) && forall g :: In(t.groups, g, Key(c)) <==> In(r.groups, g, Key(c)) && g != group
      else t == r
    case LeaveAllOp(c) => t.users == r.users && forall g :: !In(t.groups, g, Key(c))
    case TouchOp(c, now) => if Holds(r, c) then Holds(t, c) && t.connections[Key(c)].lastSeen == now else t == r
    case EvictOp(target, deadline) =>
      if Evictable(r, target, deadline) then t.connections == r.connections - {target.key} else t == r
  }

  /** Each operation of a sequence has its effect on what those before it have left. */
  lemma LastOperation(ops: seq<Op>, op: Op)
    requires Valid(RunOps(ops)) && Fresh(RunOps(ops), op)
    ensures Effect(RunOps(ops), op, RunOps(ops + [op]))
  {
    assert (ops + [op])[..|ops|] == ops;
    var r := RunOps(ops);
    match op
    case RemoveOp(c) => RemoveKeepsValid(r, c);
    case LeaveOp(c, group) =>
      if Holds(r, c) && group != "" {
        LeavesOneGroup(r, c, group);
      }
    case LeaveAllOp(c) => LeaveAllLeavesAll(r, c);
    case _ =>
  }

  lemma LeavesOneGroup(r: Reg, c: Conn, group: string)
    requires Valid(r) && Holds(r, c) && group != ""
    ensures var t := RemoveFromGroup(r, c, group);
            forall g :: In(t.groups, g, Key(c)) <==> In(r.groups, g, Key(c)) && g != group
  {
    var t := RemoveFromGroup(r, c, group);
    RemoveFromGroupKeepsValid(r, c, group);
    forall g ensures In(t.groups, g, Key(c)) <==> In(r.groups, g, Key(c)) && g != group {
      assert In(t.groups, g, Key(c)) <==> g in GroupTags(t.connections[Key(c)]);
      assert In(r.groups, g, Key(c)) <==> g in GroupTags(r.connections[Key(c)]);
    }
  }

  /**
   Index agreement: after any sequence of operations, evictions included, with fresh keys both indexes agree with the
   primary map.
   */
  lemma {:induction false} IndexAgreement(ops: seq<Op>)
    requires FreshRun(ops)
    ensures Valid(RunOps(ops))
  {
    if ops == [] {
      EmptyIsValid();
    } else {
      var n := |ops| - 1;
      assert forall i :: 0 <= i < n ==> ops[..n][..i] == ops[..i];
      IndexAgreement(ops[..n]);
      assert Fresh(RunOps(ops[..n]), ops[n]);
      ApplyKeepsValid(RunOps(ops[..n]), ops[n]);
    }
  }

  // ---- counting -----------------------------------------------------------------------

  function KeysUnder(ix: Index, tags: set<string>): set<string>
  {
    set l, k | l in tags && l in ix && k in ix[l] :: k
  }

  /** The sum of the sizes of some of the sets of an index. */
  ghost function SizeUnder(ix: Index, tags: set<string>): nat
    requires tags <= ix.Keys
  {
    if tags == {} then 0 else
      var l :| l in tags;
      |ix[l]| + SizeUnder(ix, tags - {l})
  }

  lemma KeysSplit(ix: Index, tags: set<string>, l: string)
    requires tags <= ix.Keys && l in tags
    requires forall l, m, k :: In(ix, l, k) && In(ix, m, k) ==> l == m
    ensures KeysUnder(ix, tags) == ix[l].Keys + KeysUnder(ix, tags - {l})
    ensures ix[l].Keys !! KeysUnder(ix, tags - {l})
  {
    forall k | k in ix[l].Keys ensures k !in KeysUnder(ix, tags - {l}) {
      assert In(ix, l, k);
      forall m | m in tags - {l} ensures k !in ix[m] {
        assert In(ix, m, k) ==> l == m;
      }
    }
  }

  /** Sets of an index that gives each key one tag are disjoint, so their sizes add up. */
  lemma {:induction false} SizesAddUp(ix: Index, tags: set<string>)
    requires tags <= ix.Keys
    requires forall l, m, k :: In(ix, l, k) && In(ix, m, k) ==> l == m
    ensures SizeUnder(ix, tags) == |KeysUnder(ix, tags)|
  {
    if tags == {} {
      assert KeysUnder(ix, tags) == {};
    } else {
      var l :| l in tags && SizeUnder(ix, tags) == |ix[l]| + SizeUnder(ix, tags - {l});
      SizesAddUp(ix, tags - {l});
      KeysSplit(ix, tags, l);
      assert |ix[l].Keys| == |ix[l]|;
    }
  }

  function Anonymous(r: Reg): set<string>
  {
    set k | k in r.connections && r.connections[k].conn.user == ""
  }

  lemma KnownUsers(r: Reg)
    requires Valid(r)
    ensures KeysUnder(r.users, r.users.Keys) == r.connections.Keys - Anonymous(r)
  {
    var known := KeysUnder(r.users, r.users.Keys);
    forall k ensures k in known <==> k in r.connections.Keys - Anonymous(r) {
      if k in known {
        var l :| l in r.users && k in r.users[l];
        assert In(r.users, l, k);
      }
      if k in r.connections && r.connections[k].conn.user != "" {
        var user := r.connections[k].conn.user;
        assert user in UserTags(r.connections[k]);
        assert In(r.users, user, k);
      }
    }
  }

  /** The user counts and the anonymous connections sum to the size of the primary map. */
  lemma UserCountsSum(r: Reg)
    requires Valid(r)
    ensures SizeUnder(r.users, r.users.Keys) + |Anonymous(r)| == |r.connections|
  {
    forall l, m, k | In(r.users, l, k) && In(r.users, m, k) ensures l == m {
      assert l in UserTags(r.connections[k]) && m in UserTags(r.connections[k]);
    }
    SizesAddUp(r.users, r.users.Keys);
    KnownUsers(r);
    assert Anonymous(r) <= r.connections.Keys;
    assert |r.connections.Keys - Anonymous(r)| == |r.connections.Keys| - |Anonymous(r)|;
    assert |r.connections.Keys| == |r.connections|;
  }
}
