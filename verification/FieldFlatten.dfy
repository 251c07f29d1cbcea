/** Flattening a nested fields tree to a map from dotted names to leaves, for the viewer. */
module FieldFlatten {
  import opened Common
  import opened FieldTree

  /** Anything but an object is a leaf, and so is an object that carries a field's payload. */
  function ViewerKind(v: Json): Kind {
    if !v.Obj? then Leaf
    else if Has(v.members, "value") || Has(v.members, "confidence") || Has(v.members, "geometry") then Leaf
    else Group
  }

  /** Assigning the leaves one after the other; a later one of the same name wins. */
  function Assign(out: map<string, Json>, fields: seq<Field>): map<string, Json>
    decreases |fields|
  {
    if fields == [] then out else Assign(out[fields[0].name := fields[0].data], fields[1..])
  }

  lemma {:induction false} AssignConcat(out: map<string, Json>, a: seq<Field>, b: seq<Field>)
    ensures Assign(out, a + b) == Assign(Assign(out, a), b)
    decreases |a|
  {
    if a == [] {
      assert a + b == b;
    } else {
      assert (a + b)[0] == a[0] && (a + b)[1..] == a[1..] + b;
      AssignConcat(out[a[0].name := a[0].data], a[1..], b);
    }
  }

  /** The accumulator object the recursion writes into. */
  class Out {
    var entries: map<string, Json>

    constructor ()
      ensures entries == map[]
    {
      entries := map[];
    }

    method FlattenFields(fields: seq<Member>, prefix: string)
      modifies this
      ensures entries == Assign(old(entries), Leaves(ViewerKind, fields, prefix))
      decreases fields
    {
      assert fields[0..] == fields;
      for i := 0 to |fields|
        invariant Assign(entries, Leaves(ViewerKind, fields[i..], prefix))
               == Assign(old(entries), Leaves(ViewerKind, fields, prefix))
      {
        var name, val := Qualify(prefix, fields[i].key), fields[i].value;
        ghost var before, head := entries, MemberLeaves(ViewerKind, fields[i..], prefix);
        assert fields[i..][1..] == fields[i + 1..];
        assert Leaves(ViewerKind, fields[i..], prefix) == head + Leaves(ViewerKind, fields[i + 1..], prefix);
        if ViewerKind(val).Leaf? {
          entries := entries[name := val];
          assert head == [Field(name, val)] && entries == Assign(Assign(before, head), []);
        } else {
          FlattenFields(val.members, name);
        }
        assert entries == Assign(before, head);
        AssignConcat(before, head, Leaves(ViewerKind, fields[i + 1..], prefix));
      }
      assert fields[|fields|..] == [];
    }
  }

  function Flat(fields: seq<Member>): map<string, Json> {
    Assign(map[], Leaves(ViewerKind, fields, ""))
  }

  lemma {:induction false} AssignHolds(out: map<string, Json>, fields: seq<Field>, name: string)
    requires DistinctNames(fields)
    ensures name in Assign(out, fields) <==> name in out || exists f :: f in fields && f.name == name
    ensures forall f :: f in fields && f.name == name ==> Assign(out, fields)[name] == f.data
    ensures name in out && (forall f :: f in fields ==> f.name != name) ==> Assign(out, fields)[name] == out[name]
    decreases |fields|
  {
    if fields != [] {
      var f, rest := fields[0], fields[1..];
      assert forall g :: g in fields <==> g == f || g in rest;
      forall g | g in rest ensures g.name != f.name {
        var i :| 0 <= i < |rest| && rest[i] == g;
        assert fields[i + 1] == g;
      }
      AssignHolds(out[f.name := f.data], rest, name);
    }
  }

  /** The flattening of a plain tree maps exactly the dotted leaf paths to their leaves:
      nothing else is in it, and no leaf is lost or overwritten. */
  lemma FlatIsExact(fields: seq<Member>, path: Path, name: string)
    requires Plain(ViewerKind, fields)
    ensures LeafAt(ViewerKind, fields, path).Some? ==>
      Join(path) in Flat(fields) && Flat(fields)[Join(path)] == LeafAt(ViewerKind, fields, path).value
    ensures name in Flat(fields) <==> exists p :: LeafAt(ViewerKind, fields, p).Some? && Join(p) == name
  {
    var leaves, located := Leaves(ViewerKind, fields, ""), LeavesByPath(ViewerKind, fields);
    LeavesMatchPaths(ViewerKind, fields, []);
    NamesAreDistinct(ViewerKind, fields);
    LeafIsFlat(fields, path);
    AssignHolds(map[], leaves, name);
    if name in Flat(fields) {
      var f :| f in leaves && f.name == name;
      var i :| 0 <= i < |leaves| && leaves[i] == f;
      assert [] + located[i].path == located[i].path;
      assert Located(located[i].path, located[i].data) in located;
      ListedIffReached(ViewerKind, fields, located[i].path, located[i].data);
    }
    forall p | LeafAt(ViewerKind, fields, p).Some? && Join(p) == name ensures name in Flat(fields) {
      LeafIsFlat(fields, p);
    }
  }

  lemma LeafIsFlat(fields: seq<Member>, path: Path)
    requires Plain(ViewerKind, fields)
    ensures LeafAt(ViewerKind, fields, path).Some? ==>
      Join(path) in Flat(fields) && Flat(fields)[Join(path)] == LeafAt(ViewerKind, fields, path).value
  {
    if LeafAt(ViewerKind, fields, path).Some? {
      var v := LeafAt(ViewerKind, fields, path).value;
      var leaves, located := Leaves(ViewerKind, fields, ""), LeavesByPath(ViewerKind, fields);
      LeavesMatchPaths(ViewerKind, fields, []);
      NamesAreDistinct(ViewerKind, fields);
      ListedIffReached(ViewerKind, fields, path, v);
      var i :| 0 <= i < |located| && located[i] == Located(path, v);
      assert [] + path == path;
      assert leaves[i] == Field(Join(path), v) && leaves[i] in leaves;
      AssignHolds(map[], leaves, Join(path));
    }
  }

  // ---- Nothing is lost ----

  /** Every group has a member. */
  ghost predicate NoEmptyGroups(fields: seq<Member>)
    decreases fields
  {
    fields == [] ||
    (&& (ViewerKind(fields[0].value).Group? ==> fields[0].value.members != [] && NoEmptyGroups(fields[0].value.members))
     && NoEmptyGroups(fields[1..]))
  }

  /** The same keys with the same leaves and the same groups, in any order. */
  ghost predicate SameTree(a: seq<Member>, b: seq<Member>)
    decreases a
  {
    && (forall m :: m in b ==> HasKey(a, m.key))
    && (forall m :: m in a ==>
          match Get(b, m.key)
          case None => false
          case Some(v) =>
            if ViewerKind(m.value).Group?
            then ViewerKind(v).Group? && SameTree(m.value.members, v.members)
            else v == m.value)
  }

  lemma {:induction false} GetMember(members: seq<Member>, m: Member)
    requires Plain(ViewerKind, members) && m in members
    ensures Get(members, m.key) == Some(m.value) && PlainKey(m.key)
    ensures ViewerKind(m.value).Group? ==> Plain(ViewerKind, m.value.members)
    decreases |members|
  {
    if m != members[0] {
      assert m in members[1..];
      GetMember(members[1..], m);
    }
  }

  lemma {:induction false} GroupNotEmpty(members: seq<Member>, m: Member)
    requires NoEmptyGroups(members) && m in members && ViewerKind(m.value).Group?
    ensures m.value.members != [] && NoEmptyGroups(m.value.members)
    decreases |members|
  {
    if m != members[0] {
      GroupNotEmpty(members[1..], m);
    }
  }

  lemma {:induction false} GetFound(members: seq<Member>, key: string)
    requires Has(members, key)
    ensures Member(key, Get(members, key).value) in members
  {
    if members[0].key != key {
      GetFound(members[1..], key);
    }
  }

  /** A non-empty tree without empty groups has a leaf below its first key. */
  lemma {:induction false} SomeLeaf(members: seq<Member>) returns (path: Path)
    requires members != [] && Plain(ViewerKind, members) && NoEmptyGroups(members)
    ensures path != [] && path[0] == members[0].key && LeafAt(ViewerKind, members, path).Some?
    decreases members
  {
    var key, value := members[0].key, members[0].value;
    if ViewerKind(value).Group? {
      var below := SomeLeaf(value.members);
      path := [key] + below;
      assert path[1..] == below;
    } else {
      path := [key];
    }
  }

  lemma {:induction false} PathIsPlain(members: seq<Member>, path: Path)
    requires Plain(ViewerKind, members) && LeafAt(ViewerKind, members, path).Some?
    ensures path != [] && PlainPath(path)
    decreases path
  {
    GetFound(members, path[0]);
    var m := Member(path[0], Get(members, path[0]).value);
    GetMember(members, m);
    if ViewerKind(m.value).Group? {
      PathIsPlain(m.value.members, path[1..]);
      assert path == [path[0]] + path[1..];
    } else {
      assert path == [path[0]];
    }
  }

  /** Equal flattenings have the same leaf at every path. */
  lemma SameLeaves(a: seq<Member>, b: seq<Member>, path: Path)
    requires Plain(ViewerKind, a) && Plain(ViewerKind, b) && Flat(a) == Flat(b)
    ensures LeafAt(ViewerKind, a, path) == LeafAt(ViewerKind, b, path)
  {
    if LeafAt(ViewerKind, a, path).Some? {
      LeafCarriesOver(a, b, path);
    } else if LeafAt(ViewerKind, b, path).Some? {
      LeafCarriesOver(b, a, path);
    }
  }

  lemma LeafCarriesOver(a: seq<Member>, b: seq<Member>, path: Path)
    requires Plain(ViewerKind, a) && Plain(ViewerKind, b) && Flat(a) == Flat(b)
    requires LeafAt(ViewerKind, a, path).Some?
    ensures LeafAt(ViewerKind, b, path) == LeafAt(ViewerKind, a, path)
  {
    FlatIsExact(a, path, Join(path));
    FlatIsExact(b, path, Join(path));
    var p :| LeafAt(ViewerKind, b, p).Some? && Join(p) == Join(path);
    PathIsPlain(a, path);
    PathIsPlain(b, p);
    JoinInjective(p, path);
  }

  /** The leaves below a key are the leaves of the group under it. */
  lemma LeafBelow(members: seq<Member>, m: Member, path: Path)
    requires Plain(ViewerKind, members) && m in members && ViewerKind(m.value).Group?
    ensures LeafAt(ViewerKind, members, [m.key] + path) == LeafAt(ViewerKind, m.value.members, path)
  {
    GetMember(members, m);
    assert ([m.key] + path)[1..] == path;
  }

  /** The member of b that stands for a member of a. */
  lemma Counterpart(a: seq<Member>, b: seq<Member>, m: Member) returns (n: Member)
    requires Plain(ViewerKind, a) && Plain(ViewerKind, b) && NoEmptyGroups(a) && m in a
    requires forall path :: LeafAt(ViewerKind, a, path) == LeafAt(ViewerKind, b, path)
    ensures n in b && n.key == m.key && Get(b, m.key) == Some(n.value)
    ensures ViewerKind(n.value) == ViewerKind(m.value)
    ensures ViewerKind(m.value).Leaf? ==> n.value == m.value
    ensures ViewerKind(m.value).Group? ==>
      forall p :: LeafAt(ViewerKind, m.value.members, p) == LeafAt(ViewerKind, n.value.members, p)
  {
    GetMember(a, m);
    var path := LeafUnder(a, m);
    assert LeafAt(ViewerKind, b, path).Some?;
    GetFound(b, m.key);
    n := Member(m.key, Get(b, m.key).value);
    GetMember(b, n);
    if ViewerKind(m.value).Group? {
      forall p ensures LeafAt(ViewerKind, m.value.members, p) == LeafAt(ViewerKind, n.value.members, p) {
        LeafBelow(a, m, p);
        LeafBelow(b, n, p);
      }
    } else {
      assert LeafAt(ViewerKind, a, [m.key]) == Some(m.value);
      assert LeafAt(ViewerKind, b, [m.key]) == Some(m.value);
    }
  }

  lemma {:induction false} LeavesDecideTree(a: seq<Member>, b: seq<Member>)
    requires Plain(ViewerKind, a) && Plain(ViewerKind, b) && NoEmptyGroups(a) && NoEmptyGroups(b)
    requires forall path :: LeafAt(ViewerKind, a, path) == LeafAt(ViewerKind, b, path)
    ensures SameTree(a, b)
    decreases a
  {
    forall m | m in b ensures HasKey(a, m.key) {
      var n := Counterpart(b, a, m);
    }
    forall m | m in a
      ensures Has(b, m.key)
      ensures ViewerKind(m.value).Group? ==>
        ViewerKind(Get(b, m.key).value).Group? && SameTree(m.value.members, Get(b, m.key).value.members)
      ensures !ViewerKind(m.value).Group? ==> Get(b, m.key).value == m.value
    {
      var n := Counterpart(a, b, m);
      if ViewerKind(m.value).Group? {
        GetMember(a, m);
        GetMember(b, n);
        GroupNotEmpty(a, m);
        GroupNotEmpty(b, n);
        LeavesDecideTree(m.value.members, n.value.members);
      }
    }
  }

  /** Some leaf lies at or below a member; below it when the member is a group. */
  lemma LeafUnder(members: seq<Member>, m: Member) returns (path: Path)
    requires Plain(ViewerKind, members) && NoEmptyGroups(members) && m in members
    ensures path != [] && path[0] == m.key && LeafAt(ViewerKind, members, path).Some?
    ensures ViewerKind(m.value).Group? <==> |path| > 1
  {
    GetMember(members, m);
    if ViewerKind(m.value).Group? {
      GroupNotEmpty(members, m);
      var below := SomeLeaf(m.value.members);
      path := [m.key] + below;
      LeafBelow(members, m, below);
    } else {
      path := [m.key];
    }
  }

  /** Flattening loses nothing: two plain trees without empty groups that flatten to the same
      map are the same tree. */
  lemma FlatIsInjective(a: seq<Member>, b: seq<Member>)
    requires Plain(ViewerKind, a) && Plain(ViewerKind, b) && NoEmptyGroups(a) && NoEmptyGroups(b)
    requires Flat(a) == Flat(b)
    ensures SameTree(a, b)
  {
    forall path ensures LeafAt(ViewerKind, a, path) == LeafAt(ViewerKind, b, path) {
      SameLeaves(a, b, path);
    }
    LeavesDecideTree(a, b);
  }

  /** An object without the members that mark a field. */
  predicate IsGroup(v: Json) {
    v.Obj? && Get(v.members, "value") == None && Get(v.members, "confidence") == None && Get(v.members, "geometry") == None
  }

  /** The viewer's leaves are the values, other than such objects, that only such objects lead to. */
  lemma ViewedLeafIff(members: seq<Member>, path: Path, v: Json)
    ensures LeafAt(ViewerKind, members, path) == Some(v) <==>
      && path != [] && At(members, path) == Some(v) && !IsGroup(v)
      && forall k :: 0 < k < |path| ==> At(members, path[..k]).Some? && IsGroup(At(members, path[..k]).value)
  {
    LeafAtIff(ViewerKind, members, path, v);
    assert forall j: Json :: ViewerKind(j).Group? <==> IsGroup(j);
  }
}
