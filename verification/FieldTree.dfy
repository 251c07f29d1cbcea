/** Trees of extracted fields, and the dotted names their leaves get. */
module FieldTree {
  import opened Common

  /** JSON; an object keeps its members in order. */
  datatype Json =
    | Null
    | Bool(b: bool)
    | Num(n: real)
    | Str(s: string)
    | Arr(items: seq<Json>)
    | Obj(members: seq<Member>)

  datatype Member = Member(key: string, value: Json)

  function Get(members: seq<Member>, key: string): Option<Json> {
    if members == [] then None
    else if members[0].key == key then Some(members[0].value)
    else Get(members[1..], key)
  }

  predicate Has(members: seq<Member>, key: string) { Get(members, key).Some? }

  /** How a walk treats a member's value. A group is an object whose members are walked in turn. */
  datatype Kind = Skip | Leaf | Group

  type Classifier = k: Json -> Kind | forall v :: k(v).Group? ==> v.Obj? witness (_ => Skip)

  /** A leaf under its dotted name. */
  datatype Field = Field(name: string, data: Json)

  /** An empty parent name counts as none. */
  function Qualify(parent: string, key: string): string {
    if parent == "" then key else parent + "." + key
  }

  /** The leaves below a parent name, in order. */
  function Leaves(kind: Classifier, members: seq<Member>, parent: string): seq<Field>
    decreases members
  {
    if members == [] then []
    else MemberLeaves(kind, members, parent) + Leaves(kind, members[1..], parent)
  }

  function MemberLeaves(kind: Classifier, members: seq<Member>, parent: string): seq<Field>
    requires members != []
    decreases members, 0
  {
    var name, value := Qualify(parent, members[0].key), members[0].value;
    match kind(value)
    case Skip => []
    case Leaf => [Field(name, value)]
    case Group => Leaves(kind, value.members, name)
  }

  // ---- The same leaves by path ----

  type Path = seq<string>

  datatype Located = Located(path: Path, data: Json)

  function Under(key: string, located: seq<Located>): seq<Located> {
    seq(|located|, i requires 0 <= i < |located| => Located([key] + located[i].path, located[i].data))
  }

  function LeavesByPath(kind: Classifier, members: seq<Member>): seq<Located>
    decreases members
  {
    if members == [] then []
    else MemberByPath(kind, members) + LeavesByPath(kind, members[1..])
  }

  function MemberByPath(kind: Classifier, members: seq<Member>): seq<Located>
    requires members != []
    decreases members, 0
  {
    var key, value := members[0].key, members[0].value;
    match kind(value)
    case Skip => []
    case Leaf => [Located([key], value)]
    case Group => Under(key, LeavesByPath(kind, value.members))
  }

  /** Walking down from the root one key at a time. */
  function LeafAt(kind: Classifier, members: seq<Member>, path: Path): Option<Json>
    decreases path
  {
    if path == [] then None
    else match Get(members, path[0])
      case None => None
      case Some(v) =>
        match kind(v)
        case Skip => None
        case Leaf => if |path| == 1 then Some(v) else None
        case Group => LeafAt(kind, v.members, path[1..])
  }

  /** The value at a path of object keys. */
  function At(members: seq<Member>, path: Path): Option<Json>
    decreases path
  {
    if path == [] then None
    else match Get(members, path[0])
      case None => None
      case Some(v) => if |path| == 1 then Some(v) else if v.Obj? then At(v.members, path[1..]) else None
  }

  ghost predicate GroupsDownTo(kind: Classifier, members: seq<Member>, path: Path) {
    forall k :: 0 < k < |path| ==> At(members, path[..k]).Some? && kind(At(members, path[..k]).value).Group?
  }

  lemma AtCons(members: seq<Member>, path: Path, k: nat)
    requires 1 < k <= |path|
    ensures At(members, path[..k]) ==
      match Get(members, path[0]) case None => None case Some(v) => if v.Obj? then At(v.members, path[1..][..k - 1]) else None
  {
    assert path[..k][1..] == path[1..][..k - 1];
  }

  lemma GroupsCons(kind: Classifier, members: seq<Member>, path: Path)
    requires |path| > 1
    ensures GroupsDownTo(kind, members, path) <==>
      match Get(members, path[0])
      case None => false
      case Some(v) => kind(v).Group? && GroupsDownTo(kind, v.members, path[1..])
  {
    assert path[..1] == [path[0]];
    forall k | 1 < k < |path| {
      AtCons(members, path, k);
    }
    match Get(members, path[0])
    case None => assert At(members, path[..1]).None?;
    case Some(v) =>
      assert At(members, path[..1]) == Some(v);
      if kind(v).Group? && GroupsDownTo(kind, v.members, path[1..]) {
        forall k | 0 < k < |path| ensures At(members, path[..k]).Some? && kind(At(members, path[..k]).value).Group? {
          if k > 1 {
            AtCons(members, path, k);
          }
        }
      }
      if GroupsDownTo(kind, members, path) {
        forall k | 0 < k < |path[1..]|
          ensures At(v.members, path[1..][..k]).Some? && kind(At(v.members, path[1..][..k]).value).Group?
        {
          AtCons(members, path, k + 1);
        }
      }
  }

  /** The leaves are the values of the leaf kind that only groups lead to. */
  lemma {:induction false} LeafAtIff(kind: Classifier, members: seq<Member>, path: Path, v: Json)
    ensures LeafAt(kind, members, path) == Some(v) <==>
      path != [] && At(members, path) == Some(v) && kind(v).Leaf? && GroupsDownTo(kind, members, path)
    decreases |path|
  {
    if |path| > 1 {
      GroupsCons(kind, members, path);
      if Get(members, path[0]).Some? && kind(Get(members, path[0]).value).Group? {
        LeafAtIff(kind, Get(members, path[0]).value.members, path[1..], v);
      }
    }
  }

  function Join(path: Path): string {
    if path == [] then ""
    else if |path| == 1 then path[0]
    else path[0] + "." + Join(path[1..])
  }

  predicate PlainKey(key: string) { key != "" && '.' !in key }

  predicate PlainPath(path: Path) { forall k :: k in path ==> PlainKey(k) }

  /** Every object a walk enters has distinct, non-empty keys without dots. */
  ghost predicate Plain(kind: Classifier, members: seq<Member>)
    decreases members
  {
    members == [] ||
    (&& PlainKey(members[0].key)
     && (forall m :: m in members[1..] ==> m.key != members[0].key)
     && (kind(members[0].value).Group? ==> Plain(kind, members[0].value.members))
     && Plain(kind, members[1..]))
  }

  // ---- Joining plain paths is injective ----

  lemma FirstDot(s: string, u: string)
    requires '.' !in s
    ensures (s + "." + u)[|s|] == '.'
    ensures forall k :: 0 <= k < |s| ==> (s + "." + u)[k] != '.'
  {
    forall k | 0 <= k < |s| ensures (s + "." + u)[k] == s[k] {
    }
  }

  lemma DotFree(s: string, t: string, u: string, v: string)
    requires '.' !in s && '.' !in t
    requires s + "." + u == t + "." + v
    ensures s == t && u == v
  {
    var x := s + "." + u;
    FirstDot(s, u);
    FirstDot(t, v);
    assert |s| == |t|;
    assert s == x[..|s|] && t == x[..|s|];
    assert u == x[|s| + 1..] && v == x[|s| + 1..];
  }

  lemma JoinHasDot(p: Path)
    requires |p| > 1
    ensures '.' in Join(p)
  {
    assert Join(p)[|p[0]|] == '.';
  }

  lemma {:induction false} JoinInjective(p: Path, q: Path)
    requires p != [] && q != [] && PlainPath(p) && PlainPath(q)
    requires Join(p) == Join(q)
    ensures p == q
  {
    assert p[0] in p && q[0] in q;
    if |p| > 1 { JoinHasDot(p); }
    if |q| > 1 { JoinHasDot(q); }
    assert |p| > 1 <==> |q| > 1;
    if |p| > 1 {
      DotFree(p[0], q[0], Join(p[1..]), Join(q[1..]));
      JoinInjective(p[1..], q[1..]);
      assert p == [p[0]] + p[1..] && q == [q[0]] + q[1..];
    }
  }

  lemma {:induction false} QualifyJoin(p: Path, key: string)
    requires PlainPath(p)
    ensures Qualify(Join(p), key) == Join(p + [key])
  {
    if |p| == 1 {
      assert p[0] in p;
      assert (p + [key])[1..] == [key];
    } else if |p| > 1 {
      assert p[0] in p && PlainPath(p[1..]);
      assert (p + [key])[1..] == p[1..] + [key];
      QualifyJoin(p[1..], key);
      assert p[1] in p[1..];
      assert Join(p[1..]) != "";
    }
  }

  /** The accumulated names are the joined paths. */
  ghost predicate Matches(fields: seq<Field>, located: seq<Located>, prefix: Path) {
    && |fields| == |located|
    && forall i :: 0 <= i < |fields| ==>
         fields[i] == Field(Join(prefix + located[i].path), located[i].data)
  }

  lemma {:induction false} LeavesMatchPaths(kind: Classifier, members: seq<Member>, prefix: Path)
    requires Plain(kind, members) && PlainPath(prefix)
    ensures Matches(Leaves(kind, members, Join(prefix)), LeavesByPath(kind, members), prefix)
    decreases members
  {
    if members != [] {
      LeavesMatchPaths(kind, members[1..], prefix);
      MemberMatchesPaths(kind, members, prefix);
    }
  }

  lemma {:induction false} MemberMatchesPaths(kind: Classifier, members: seq<Member>, prefix: Path)
    requires members != [] && Plain(kind, members) && PlainPath(prefix)
    ensures Matches(MemberLeaves(kind, members, Join(prefix)), MemberByPath(kind, members), prefix)
    decreases members, 0
  {
    var key, value := members[0].key, members[0].value;
    QualifyJoin(prefix, key);
    if kind(value).Group? {
      LeavesMatchPaths(kind, value.members, prefix + [key]);
      var inner := LeavesByPath(kind, value.members);
      forall i | 0 <= i < |inner| ensures prefix + [key] + inner[i].path == prefix + ([key] + inner[i].path) {
      }
    }
  }

  // ---- Listing and walking find the same leaves ----

  lemma {:induction false} ListedIffReached(kind: Classifier, members: seq<Member>, path: Path, v: Json)
    requires Plain(kind, members)
    ensures Located(path, v) in LeavesByPath(kind, members) <==> LeafAt(kind, members, path) == Some(v)
    decreases members
  {
    if members != [] {
      var rest := members[1..];
      ListedIffReached(kind, rest, path, v);
      MemberListedIffReached(kind, members, path, v);
      if path != [] && path[0] == members[0].key {
        AbsentKey(rest, path[0]);
      }
    }
  }

  lemma {:induction false} AbsentKey(members: seq<Member>, key: string)
    requires forall m :: m in members ==> m.key != key
    ensures Get(members, key) == None
  {
    if members != [] {
      assert members[0] in members;
      AbsentKey(members[1..], key);
    }
  }

  lemma {:induction false} MemberListedIffReached(kind: Classifier, members: seq<Member>, path: Path, v: Json)
    requires members != [] && Plain(kind, members)
    ensures Located(path, v) in MemberByPath(kind, members)
       <==> path != [] && path[0] == members[0].key && LeafAt(kind, members, path) == Some(v)
    decreases members, 0
  {
    var key, value := members[0].key, members[0].value;
    if |path| == 1 {
      assert path == [path[0]];
    }
    if kind(value).Group? {
      var inner := LeavesByPath(kind, value.members);
      if path != [] && path[0] == key {
        ListedIffReached(kind, value.members, path[1..], v);
        assert path == [key] + path[1..];
        if Located(path[1..], v) in inner {
          var i :| 0 <= i < |inner| && inner[i] == Located(path[1..], v);
          assert Under(key, inner)[i] == Located(path, v);
        }
      }
      if Located(path, v) in Under(key, inner) {
        var i :| 0 <= i < |inner| && Under(key, inner)[i] == Located(path, v);
        assert path[1..] == inner[i].path;
      }
    }
  }

  ghost predicate DistinctPaths(located: seq<Located>) {
    forall i, j :: 0 <= i < j < |located| ==> located[i].path != located[j].path
  }

  lemma {:induction false} PathsAreDistinct(kind: Classifier, members: seq<Member>)
    requires Plain(kind, members)
    ensures DistinctPaths(LeavesByPath(kind, members))
    ensures forall l :: l in LeavesByPath(kind, members) ==> l.path != [] && PlainPath(l.path) && HasKey(members, l.path[0])
    decreases members
  {
    if members != [] {
      var rest := members[1..];
      PathsAreDistinct(kind, rest);
      MemberPathsAreDistinct(kind, members);
      var head, tail := MemberByPath(kind, members), LeavesByPath(kind, rest);
      forall l | l in tail ensures HasKey(members, l.path[0]) && l.path[0] != members[0].key {
        var m :| m in rest && m.key == l.path[0];
        assert m in members;
      }
      forall i, j | 0 <= i < j < |head + tail| ensures (head + tail)[i].path != (head + tail)[j].path {
        if i < |head| <= j {
          assert head[i] in head && tail[j - |head|] in tail;
        }
      }
    }
  }

  ghost predicate HasKey(members: seq<Member>, key: string) {
    exists m :: m in members && m.key == key
  }

  lemma {:induction false} MemberPathsAreDistinct(kind: Classifier, members: seq<Member>)
    requires members != [] && Plain(kind, members)
    ensures DistinctPaths(MemberByPath(kind, members))
    ensures forall l :: l in MemberByPath(kind, members) ==>
      l.path != [] && PlainPath(l.path) && l.path[0] == members[0].key && HasKey(members, l.path[0])
    decreases members, 0
  {
    var key, value := members[0].key, members[0].value;
    assert members[0] in members;
    if kind(value).Group? {
      PathsAreDistinct(kind, value.members);
      var inner := LeavesByPath(kind, value.members);
      forall i, j | 0 <= i < j < |inner| ensures Under(key, inner)[i].path != Under(key, inner)[j].path {
        assert Under(key, inner)[i].path[1..] == inner[i].path;
        assert Under(key, inner)[j].path[1..] == inner[j].path;
      }
      forall l | l in Under(key, inner) ensures PlainPath(l.path) {
        var i :| 0 <= i < |inner| && Under(key, inner)[i] == l;
        assert inner[i] in inner;
      }
    }
  }

  ghost predicate DistinctNames(fields: seq<Field>) {
    forall i, j :: 0 <= i < j < |fields| ==> fields[i].name != fields[j].name
  }

  /** The dotted names of one plain tree's leaves are distinct. */
  lemma NamesAreDistinct(kind: Classifier, members: seq<Member>)
    requires Plain(kind, members)
    ensures DistinctNames(Leaves(kind, members, ""))
  {
    var fields, located := Leaves(kind, members, ""), LeavesByPath(kind, members);
    LeavesMatchPaths(kind, members, []);
    PathsAreDistinct(kind, members);
    forall i, j | 0 <= i < j < |fields| ensures fields[i].name != fields[j].name {
      assert located[i] in located && located[j] in located;
      assert [] + located[i].path == located[i].path && [] + located[j].path == located[j].path;
      if fields[i].name == fields[j].name {
        JoinInjective(located[i].path, located[j].path);
      }
    }
  }
}
