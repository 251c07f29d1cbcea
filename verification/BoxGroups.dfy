/** The greedy loop that merges boxes into groups until no two overlap by more than half. */
module BoxGroups {
  import opened BoxMerging

  datatype Entry = Entry(fieldName: string, fieldType: string, displayName: string)
  datatype FieldBox = FieldBox(box: Box, entry: Entry)
  datatype Group = Group(box: Box, fields: seq<Entry>)

  predicate ShouldMerge(a: Group, b: Group) {
    ComputeIoU(a.box, b.box) > 0.5
  }

  function Single(b: FieldBox): Group { Group(b.box, [b.entry]) }

  function Singles(boxes: seq<FieldBox>): (groups: seq<Group>)
    ensures |groups| == |boxes|
    ensures forall k :: 0 <= k < |boxes| ==> groups[k] == Single(boxes[k])
  {
    if boxes == [] then [] else [Single(boxes[0])] + Singles(boxes[1..])
  }

  /** Replace i by the union, drop j: an element of a sequence of lists moves into an earlier one. */
  function MergeAt(groups: seq<Group>, i: nat, j: nat): seq<Group>
    requires i < j < |groups|
  {
    var union := Group(Union(groups[i].box, groups[j].box), groups[i].fields + groups[j].fields);
    groups[..i] + [union] + groups[i + 1..j] + groups[j + 1..]
  }

  ghost predicate Settled(groups: seq<Group>) {
    forall i, j :: 0 <= i < j < |groups| ==> !ShouldMerge(groups[i], groups[j])
  }

  /** (i, j) is the first pair to merge, scanning j within i. */
  ghost predicate IsFirst(groups: seq<Group>, i: int, j: int) {
    && 0 <= i < j < |groups|
    && ShouldMerge(groups[i], groups[j])
    && (forall k, m :: 0 <= k < i && k < m < |groups| ==> !ShouldMerge(groups[k], groups[m]))
    && (forall m :: i < m < j ==> !ShouldMerge(groups[i], groups[m]))
  }

  /** What the loop computes: merge the first pair, start again. */
  ghost function MergeAll(groups: seq<Group>): (result: seq<Group>)
    decreases |groups|
  {
    if exists i, j :: IsFirst(groups, i, j) then
      var i, j :| IsFirst(groups, i, j);
      MergeAll(MergeAt(groups, i, j))
    else groups
  }

  lemma MergeFirst(groups: seq<Group>, i: nat, j: nat)
    requires IsFirst(groups, i, j)
    ensures MergeAll(groups) == MergeAll(MergeAt(groups, i, j))
  {
    forall k, m | IsFirst(groups, k, m) ensures k == i && m == j {
    }
  }

  lemma SettledStays(groups: seq<Group>)
    requires Settled(groups)
    ensures MergeAll(groups) == groups
  {
  }

  lemma SpliceIsMergeAt(groups: seq<Group>, i: nat, j: nat, union: Group)
    requires i < j < |groups|
    requires union == Group(Union(groups[i].box, groups[j].box), groups[i].fields + groups[j].fields)
    ensures var stored := groups[i := union]; stored[..j] + stored[j + 1..] == MergeAt(groups, i, j)
  {
  }

  /** One pass of the two inner loops: merge the first pair, or find that there is none. */
  method MergeFirstPair(groups: seq<Group>) returns (merged: bool, groups': seq<Group>)
    ensures merged ==> |groups'| < |groups| && MergeAll(groups') == MergeAll(groups)
    ensures !merged ==> groups' == groups && Settled(groups)
  {
    for i := 0 to |groups|
      invariant forall k, m :: 0 <= k < i && k < m < |groups| ==> !ShouldMerge(groups[k], groups[m])
    {
      for j := i + 1 to |groups|
        invariant forall m :: i < m < j ==> !ShouldMerge(groups[i], groups[m])
      {
        if ShouldMerge(groups[i], groups[j]) {
          MergeFirst(groups, i, j);
          groups' := MergePair(groups, i, j);
          return true, groups';
        }
      }
    }
    return false, groups;
  }

  /** Assign the union to groups[i] and splice groups[j] out. */
  method MergePair(groups: seq<Group>, i: nat, j: nat) returns (groups': seq<Group>)
    requires i < j < |groups|
    ensures groups' == MergeAt(groups, i, j)
  {
    var a, b := groups[i], groups[j];
    var x1 := Min(a.box.left, b.box.left);
    var y1 := Min(a.box.top, b.box.top);
    var x2 := Max(a.box.left + a.box.width, b.box.left + b.box.width);
    var y2 := Max(a.box.top + a.box.height, b.box.top + b.box.height);
    var union := Group(Box(x1, y1, x2 - x1, y2 - y1), a.fields + b.fields);
    groups' := groups[i := union];
    groups' := groups'[..j] + groups'[j + 1..];
    SpliceIsMergeAt(groups, i, j, union);
  }

  method MergeOverlappingBoxes(boxes: seq<FieldBox>) returns (groups: seq<Group>)
    ensures groups == MergeAll(Singles(boxes))
    ensures forall i, j :: 0 <= i < j < |groups| ==>
        !(Overlap(groups[i].box, groups[j].box)
          && groups[i].box.Area() + groups[j].box.Area() < 3.0 * Intersection(groups[i].box, groups[j].box))
  {
    groups := Singles(boxes);
    var merged := true;
    while merged
      invariant MergeAll(groups) == MergeAll(Singles(boxes))
      invariant !merged ==> Settled(groups)
      decreases |groups|, merged
    {
      merged, groups := MergeFirstPair(groups);
    }
    SettledStays(groups);
    SettledMeans(groups);
  }

  /** In areas: a ratio above one half is an overlap of more than a third of both areas. */
  lemma SettledMeans(groups: seq<Group>)
    ensures Settled(groups) <==> forall i, j :: 0 <= i < j < |groups| ==>
        !(Overlap(groups[i].box, groups[j].box)
          && groups[i].box.Area() + groups[j].box.Area() < 3.0 * Intersection(groups[i].box, groups[j].box))
  {
    forall i, j | 0 <= i < j < |groups|
      ensures ShouldMerge(groups[i], groups[j]) <==>
        Overlap(groups[i].box, groups[j].box)
        && groups[i].box.Area() + groups[j].box.Area() < 3.0 * Intersection(groups[i].box, groups[j].box)
    {
      AboveHalf(groups[i].box, groups[j].box);
    }
  }

  // ---- What the groups are ----

  function Flatten<T>(lists: seq<seq<T>>): seq<T> {
    if lists == [] then [] else lists[0] + Flatten(lists[1..])
  }

  lemma {:induction false} FlattenConcat<T>(a: seq<seq<T>>, b: seq<seq<T>>)
    ensures Flatten(a + b) == Flatten(a) + Flatten(b)
  {
    if a == [] {
      assert a + b == b;
    } else {
      FlattenConcat(a[1..], b);
      assert (a + b)[1..] == a[1..] + b;
    }
  }

  function MoveInto<T>(lists: seq<seq<T>>, i: nat, j: nat): seq<seq<T>>
    requires i < j < |lists|
  {
    lists[..i] + [lists[i] + lists[j]] + (lists[i + 1..j] + lists[j + 1..])
  }

  lemma FlattenAround<T>(a: seq<seq<T>>, x: seq<T>, rest: seq<seq<T>>)
    ensures Flatten(a + [x] + rest) == Flatten(a) + x + Flatten(rest)
  {
    FlattenConcat(a + [x], rest);
    FlattenConcat(a, [x]);
    assert Flatten([x]) == x + Flatten<T>([]);
  }

  lemma FlattenTwo<T>(a: seq<seq<T>>, x: seq<T>, b: seq<seq<T>>, y: seq<T>, c: seq<seq<T>>)
    ensures Flatten(a + [x] + (b + [y] + c)) == Flatten(a) + x + (Flatten(b) + y + Flatten(c))
    ensures Flatten(a + [x + y] + (b + c)) == Flatten(a) + (x + y) + (Flatten(b) + Flatten(c))
  {
    FlattenAround(a, x, b + [y] + c);
    FlattenAround(b, y, c);
    FlattenAround(a, x + y, b + c);
    FlattenConcat(b, c);
  }

  lemma SamePieces<T>(p: seq<T>, x: seq<T>, q: seq<T>, y: seq<T>, r: seq<T>)
    ensures multiset(p + x + (q + y + r)) == multiset(p + (x + y) + (q + r))
  {
    assert multiset(p + x + (q + y + r)) == multiset(p) + multiset(x) + (multiset(q) + multiset(y) + multiset(r));
    assert multiset(p + (x + y) + (q + r)) == multiset(p) + (multiset(x) + multiset(y)) + (multiset(q) + multiset(r));
  }

  lemma Sliced<T>(s: seq<T>, i: nat, j: nat)
    requires i < j < |s|
    ensures s == s[..i] + [s[i]] + (s[i + 1..j] + [s[j]] + s[j + 1..])
  {
  }

  /** Moving one list onto the end of an earlier one loses and repeats nothing. */
  lemma MoveIntoKeeps<T>(lists: seq<seq<T>>, i: nat, j: nat)
    requires i < j < |lists|
    ensures multiset(Flatten(MoveInto(lists, i, j))) == multiset(Flatten(lists))
  {
    var a, b, c := lists[..i], lists[i + 1..j], lists[j + 1..];
    FlattenTwo(a, lists[i], b, lists[j], c);
    Sliced(lists, i, j);
    SamePieces(Flatten(a), lists[i], Flatten(b), lists[j], Flatten(c));
  }

  predicate Inside(b: Box, r: Box) {
    r.left <= b.left && r.top <= b.top && b.Right() <= r.Right() && b.Bottom() <= r.Bottom()
  }

  ghost predicate CoversAll(r: Box, boxes: seq<FieldBox>, members: seq<nat>) {
    forall k :: 0 <= k < |members| ==> members[k] < |boxes| && Inside(boxes[members[k]].box, r)
  }

  /** r covers the members' boxes, and lies inside every rectangle that does. */
  ghost predicate IsHull(r: Box, boxes: seq<FieldBox>, members: seq<nat>) {
    && CoversAll(r, boxes, members)
    && forall c: Box :: CoversAll(c, boxes, members) ==> Inside(r, c)
  }

  function Entries(boxes: seq<FieldBox>, members: seq<nat>): seq<Entry>
    requires forall k :: 0 <= k < |members| ==> members[k] < |boxes|
  {
    seq(|members|, k requires 0 <= k < |members| => boxes[members[k]].entry)
  }

  ghost predicate IsGroupOf(g: Group, boxes: seq<FieldBox>, members: seq<nat>) {
    && IsHull(g.box, boxes, members)
    && g.fields == Entries(boxes, members)
  }

  /** parts[k] lists the inputs that make up groups[k]; together they list every input once. */
  ghost predicate IsPartition(groups: seq<Group>, boxes: seq<FieldBox>, parts: seq<seq<nat>>) {
    && |parts| == |groups|
    && multiset(Flatten(parts)) == multiset(Indices(|boxes|))
    && forall k :: 0 <= k < |groups| ==> IsGroupOf(groups[k], boxes, parts[k])
  }

  function Indices(n: nat): seq<nat> { seq(n, k => k) }

  lemma HullOfUnion(a: Box, b: Box, boxes: seq<FieldBox>, m: seq<nat>, n: seq<nat>)
    requires IsHull(a, boxes, m) && IsHull(b, boxes, n)
    ensures IsHull(Union(a, b), boxes, m + n)
  {
    var u := Union(a, b);
    assert Inside(a, u) && Inside(b, u);
    forall c: Box | CoversAll(c, boxes, m + n) ensures Inside(u, c) {
      assert CoversAll(c, boxes, m) by {
        forall k | 0 <= k < |m| ensures m[k] < |boxes| && Inside(boxes[m[k]].box, c) {
          assert (m + n)[k] == m[k];
        }
      }
      assert CoversAll(c, boxes, n) by {
        forall k | 0 <= k < |n| ensures n[k] < |boxes| && Inside(boxes[n[k]].box, c) {
          assert (m + n)[|m| + k] == n[k];
        }
      }
    }
  }

  lemma GroupOfUnion(g: Group, h: Group, boxes: seq<FieldBox>, m: seq<nat>, n: seq<nat>)
    requires IsGroupOf(g, boxes, m) && IsGroupOf(h, boxes, n)
    ensures IsGroupOf(Group(Union(g.box, h.box), g.fields + h.fields), boxes, m + n)
  {
    HullOfUnion(g.box, h.box, boxes, m, n);
    assert g.fields + h.fields == Entries(boxes, m + n);
  }

  /** The groups other than the merged ones keep their parts. */
  lemma MergedPlace(groups: seq<Group>, parts: seq<seq<nat>>, i: nat, j: nat, k: nat)
    requires i < j < |groups| == |parts| && k < |groups| - 1 && k != i
    ensures |MergeAt(groups, i, j)| == |MoveInto(parts, i, j)| == |groups| - 1
    ensures var at := if k < j then k else k + 1;
      MergeAt(groups, i, j)[k] == groups[at] && MoveInto(parts, i, j)[k] == parts[at]
  {
  }

  lemma MergeAtPartition(groups: seq<Group>, boxes: seq<FieldBox>, parts: seq<seq<nat>>, i: nat, j: nat)
    requires IsPartition(groups, boxes, parts) && i < j < |groups|
    ensures IsPartition(MergeAt(groups, i, j), boxes, MoveInto(parts, i, j))
  {
    MoveIntoKeeps(parts, i, j);
    GroupOfUnion(groups[i], groups[j], boxes, parts[i], parts[j]);
    var merged, moved := MergeAt(groups, i, j), MoveInto(parts, i, j);
    forall k | 0 <= k < |merged| ensures IsGroupOf(merged[k], boxes, moved[k]) {
      if k != i {
        MergedPlace(groups, parts, i, j, k);
      }
    }
  }

  lemma {:induction false} FlattenSingles(n: nat)
    ensures Flatten(Apart(n)) == Indices(n)
  {
    if n == 0 {
      assert Apart(n) == [] && Indices(n) == [];
    } else {
      FlattenSingles(n - 1);
      assert Apart(n) == Apart(n - 1) + [[n - 1]] + [];
      FlattenAround<nat>(Apart(n - 1), [n - 1], []);
      assert Indices(n) == Indices(n - 1) + [n - 1];
      assert Flatten<nat>([]) == [];
    }
  }

  lemma SingleGroup(boxes: seq<FieldBox>, k: nat)
    requires k < |boxes|
    ensures IsGroupOf(Single(boxes[k]), boxes, [k])
  {
    forall c: Box | CoversAll(c, boxes, [k]) ensures Inside(boxes[k].box, c) {
      assert [k][0] == k;
    }
    assert Entries(boxes, [k]) == [boxes[k].entry];
  }

  function Apart(n: nat): seq<seq<nat>> { seq(n, k => [k]) }

  lemma SinglesPartition(boxes: seq<FieldBox>)
    ensures IsPartition(Singles(boxes), boxes, Apart(|boxes|))
  {
    FlattenSingles(|boxes|);
    forall k | 0 <= k < |boxes| ensures IsGroupOf(Singles(boxes)[k], boxes, Apart(|boxes|)[k]) {
      SingleGroup(boxes, k);
    }
  }

  lemma {:induction false} MergeAllPartition(groups: seq<Group>, boxes: seq<FieldBox>, parts: seq<seq<nat>>)
    returns (parts': seq<seq<nat>>)
    requires IsPartition(groups, boxes, parts)
    ensures IsPartition(MergeAll(groups), boxes, parts')
    decreases |groups|
  {
    if exists i, j :: IsFirst(groups, i, j) {
      var i, j :| IsFirst(groups, i, j);
      MergeFirst(groups, i, j);
      MergeAtPartition(groups, boxes, parts, i, j);
      parts' := MergeAllPartition(MergeAt(groups, i, j), boxes, MoveInto(parts, i, j));
    } else {
      parts' := parts;
    }
  }

  /** The result partitions the inputs: every input box is in exactly one group, each group
      carries its members' entries in order, and its rectangle is the smallest that
      contains their boxes. */
  lemma GroupsPartitionTheBoxes(boxes: seq<FieldBox>) returns (parts: seq<seq<nat>>)
    ensures IsPartition(MergeAll(Singles(boxes)), boxes, parts)
  {
    SinglesPartition(boxes);
    parts := MergeAllPartition(Singles(boxes), boxes, Apart(|boxes|));
  }

  function FieldLists(groups: seq<Group>): seq<seq<Entry>> {
    seq(|groups|, k requires 0 <= k < |groups| => groups[k].fields)
  }

  lemma MergeAtFieldLists(groups: seq<Group>, i: nat, j: nat)
    requires i < j < |groups|
    ensures FieldLists(MergeAt(groups, i, j)) == MoveInto(FieldLists(groups), i, j)
  {
  }

  /** No field entry is lost, repeated or invented. */
  lemma {:induction false} MergeAllKeepsFields(groups: seq<Group>)
    ensures multiset(Flatten(FieldLists(MergeAll(groups)))) == multiset(Flatten(FieldLists(groups)))
    decreases |groups|
  {
    if exists i, j :: IsFirst(groups, i, j) {
      var i, j :| IsFirst(groups, i, j);
      MergeFirst(groups, i, j);
      MergeAllKeepsFields(MergeAt(groups, i, j));
      MoveIntoKeeps(FieldLists(groups), i, j);
      MergeAtFieldLists(groups, i, j);
    }
  }

  /** No two groups of the result overlap by more than a third of their areas together. */
  lemma MergeAllSettles(groups: seq<Group>)
    ensures var result := MergeAll(groups);
      forall i, j :: 0 <= i < j < |result| ==>
        !(Overlap(result[i].box, result[j].box)
          && result[i].box.Area() + result[j].box.Area() < 3.0 * Intersection(result[i].box, result[j].box))
  {
    MergeAllIsSettled(groups);
    SettledMeans(MergeAll(groups));
  }

  /** Two boxes become one exactly when they overlap by that much. */
  lemma TwoBoxesMergeIff(a: FieldBox, b: FieldBox)
    ensures MergeAll([Single(a), Single(b)]) ==
      if Overlap(a.box, b.box) && a.box.Area() + b.box.Area() < 3.0 * Intersection(a.box, b.box)
      then [Group(Union(a.box, b.box), [a.entry, b.entry])]
      else [Single(a), Single(b)]
  {
    assert [a.entry] + [b.entry] == [a.entry, b.entry];
    TwoGroupsMergeIff(Single(a), Single(b));
  }

  lemma TwoGroupsMergeIff(a: Group, b: Group)
    ensures MergeAll([a, b]) ==
      if Overlap(a.box, b.box) && a.box.Area() + b.box.Area() < 3.0 * Intersection(a.box, b.box)
      then [Group(Union(a.box, b.box), a.fields + b.fields)]
      else [a, b]
  {
    HalfMeans(a, b);
    PairMergesIff(a, b);
  }

  lemma PairMergesIff(a: Group, b: Group)
    ensures MergeAll([a, b]) == if ShouldMerge(a, b) then [Group(Union(a.box, b.box), a.fields + b.fields)] else [a, b]
  {
    if ShouldMerge(a, b) {
      PairMerges(a, b);
    } else {
      PairStays(a, b);
    }
  }

  lemma HalfMeans(a: Group, b: Group)
    ensures ShouldMerge(a, b) <==> Overlap(a.box, b.box) && a.box.Area() + b.box.Area() < 3.0 * Intersection(a.box, b.box)
  {
    AboveHalf(a.box, b.box);
  }

  lemma PairMerges(a: Group, b: Group)
    requires ShouldMerge(a, b)
    ensures MergeAll([a, b]) == [Group(Union(a.box, b.box), a.fields + b.fields)]
  {
    assert IsFirst([a, b], 0, 1);
    MergeFirst([a, b], 0, 1);
    assert MergeAt([a, b], 0, 1) == [Group(Union(a.box, b.box), a.fields + b.fields)];
    SettledStays(MergeAt([a, b], 0, 1));
  }

  lemma PairStays(a: Group, b: Group)
    requires !ShouldMerge(a, b)
    ensures MergeAll([a, b]) == [a, b]
  {
    forall i, j | 0 <= i < j < |[a, b]| ensures !ShouldMerge([a, b][i], [a, b][j]) {
      assert i == 0 && j == 1;
    }
    SettledStays([a, b]);
  }

  lemma {:induction false} MergeAllIsSettled(groups: seq<Group>)
    ensures Settled(MergeAll(groups))
    decreases |groups|
  {
    if exists i, j :: IsFirst(groups, i, j) {
      var i, j :| IsFirst(groups, i, j);
      MergeFirst(groups, i, j);
      MergeAllIsSettled(MergeAt(groups, i, j));
    } else if !Settled(groups) {
      var i, j := FirstExists(groups);
    }
  }

  /** When some pair should merge, there is a first one. */
  lemma FirstExists(groups: seq<Group>) returns (i: nat, j: nat)
    requires !Settled(groups)
    ensures IsFirst(groups, i, j)
  {
    i, j := 0, 1;
    while !(i < j < |groups| && ShouldMerge(groups[i], groups[j]))
      invariant 0 <= i < |groups| && i < j <= |groups|
      invariant forall k, m :: 0 <= k < i && k < m < |groups| ==> !ShouldMerge(groups[k], groups[m])
      invariant forall m :: i < m < j ==> !ShouldMerge(groups[i], groups[m])
      decreases |groups| - i, |groups| - j
    {
      if j == |groups| {
        i, j := i + 1, i + 2;
      } else {
        j := j + 1;
      }
    }
  }

  // ---- The grouping depends on the order of the boxes ----

  function Bar(x: real, w: real): Box { Box(x, 0.0, w, 1.0) }

  lemma BarRatio(x: real, v: real, y: real, w: real)
    requires x <= y < x + v <= y + w
    ensures ComputeIoU(Bar(x, v), Bar(y, w)) > 0.5 <==> 3.0 * (x + v - y) > v + w
    ensures ComputeIoU(Bar(y, w), Bar(x, v)) > 0.5 <==> 3.0 * (x + v - y) > v + w
  {
    AboveHalf(Bar(x, v), Bar(y, w));
    IoUSymmetric(Bar(x, v), Bar(y, w));
  }

  /** Whenever b overlaps both a and c by more than half, and neither union the other box,
      listing the three in opposite orders groups them differently. */
  lemma OrderDecides(a: FieldBox, b: FieldBox, c: FieldBox)
    requires ShouldMerge(Single(a), Single(b)) && ShouldMerge(Single(c), Single(b))
    requires !(ComputeIoU(Union(a.box, b.box), c.box) > 0.5) && !(ComputeIoU(Union(c.box, b.box), a.box) > 0.5)
    ensures MergeAll([Single(a), Single(b), Single(c)]) == [Group(Union(a.box, b.box), [a.entry, b.entry]), Single(c)]
    ensures MergeAll([Single(c), Single(b), Single(a)]) == [Group(Union(c.box, b.box), [c.entry, b.entry]), Single(a)]
  {
    FirstTwo(Single(a), Single(b), Single(c), Group(Union(a.box, b.box), [a.entry, b.entry]));
    FirstTwo(Single(c), Single(b), Single(a), Group(Union(c.box, b.box), [c.entry, b.entry]));
  }

  lemma LeftChain()
    ensures ComputeIoU(Bar(0.0, 10.0), Bar(3.0, 10.0)) > 0.5
  {
    BarRatio(0.0, 10.0, 3.0, 10.0);
  }

  lemma LeftTooWide()
    ensures !(ComputeIoU(Bar(0.0, 13.0), Bar(6.0, 10.0)) > 0.5)
  {
    BarRatio(0.0, 13.0, 6.0, 10.0);
  }

  lemma RightChain()
    ensures ComputeIoU(Bar(6.0, 10.0), Bar(3.0, 10.0)) > 0.5
  {
    BarRatio(3.0, 10.0, 6.0, 10.0);
  }

  lemma RightTooWide()
    ensures !(ComputeIoU(Bar(3.0, 13.0), Bar(0.0, 10.0)) > 0.5)
  {
    BarRatio(0.0, 10.0, 3.0, 13.0);
  }

  lemma BarUnions()
    ensures Union(Bar(0.0, 10.0), Bar(3.0, 10.0)) == Bar(0.0, 13.0)
    ensures Union(Bar(6.0, 10.0), Bar(3.0, 10.0)) == Bar(3.0, 13.0)
  {
  }

  /** Such boxes exist: bars ten wide at 0, 3 and 6. */
  lemma OrderMatters() returns (a: Box, b: Box, c: Box)
    ensures ComputeIoU(a, b) > 0.5 && ComputeIoU(c, b) > 0.5
    ensures !(ComputeIoU(Union(a, b), c) > 0.5) && !(ComputeIoU(Union(c, b), a) > 0.5)
  {
    a, b, c := Bar(0.0, 10.0), Bar(3.0, 10.0), Bar(6.0, 10.0);
    BarUnions();
    LeftChain();
    LeftTooWide();
    RightChain();
    RightTooWide();
  }

  lemma FirstTwo(a: Group, b: Group, c: Group, union: Group)
    requires ShouldMerge(a, b)
    requires union == Group(Union(a.box, b.box), a.fields + b.fields)
    requires !ShouldMerge(union, c)
    ensures MergeAll([a, b, c]) == [union, c]
  {
    assert IsFirst([a, b, c], 0, 1);
    MergeFirst([a, b, c], 0, 1);
    assert MergeAt([a, b, c], 0, 1) == [union, c];
    SettledStays(MergeAt([a, b, c], 0, 1));
  }
}
