/** The average and the metrics computed later, by field name, against what the
    reader classified field by field. */
module FieldAgreement {
  import opened Common
  import opened FieldTree
  import opened FieldReader

  function Sum(xs: seq<real>): real {
    if xs == [] then 0.0 else xs[0] + Sum(xs[1..])
  }

  /** None when there is nothing to average. */
  function Mean(xs: seq<real>): Option<real> {
    if xs == [] then None else Some(Sum(xs) / |xs| as real)
  }

  lemma {:induction false} SumAdds(a: seq<real>, b: seq<real>)
    ensures Sum(a + b) == Sum(a) + Sum(b)
  {
    if a == [] {
      assert a + b == b;
    } else {
      assert (a + b)[1..] == a[1..] + b;
      SumAdds(a[1..], b);
    }
  }

  lemma SumOfOne(x: real)
    ensures Sum([x]) == x
  {
    assert [x][1..] == [];
  }

  /** The mean times the number of values is their sum. */
  lemma MeanIsExact(xs: seq<real>)
    ensures Mean(xs).None? <==> xs == []
    ensures xs != [] ==> Mean(xs).value * |xs| as real == Sum(xs)
  {
  }

  function ToSet(names: seq<string>): set<string> { set n | n in names }

  /** The confidences of the fields whose name is not excluded. */
  function Kept(confidences: seq<(string, real)>, excluded: set<string>): seq<real> {
    if confidences == [] then []
    else if confidences[0].0 in excluded then Kept(confidences[1..], excluded)
    else [confidences[0].1] + Kept(confidences[1..], excluded)
  }

  function CalculateAverage(confidences: seq<(string, real)>, empty: seq<string>,
                            missingGeometry: seq<string>): Option<real> {
    Mean(Kept(confidences, ToSet(empty) + ToSet(missingGeometry)))
  }

  datatype FieldMetrics = FieldMetrics(count: nat, notEmpty: nat, average: Option<real>)

  function CalculateFieldMetrics(r: ReaderResult, missingGeometryCounts: bool): FieldMetrics {
    if r.confidences == [] then FieldMetrics(0, 0, None)
    else
      var missing := if missingGeometryCounts then r.missingGeometry else [];
      FieldMetrics(|r.confidences|,
                   |Kept(r.confidences, ToSet(r.empty) + ToSet(missing))|,
                   CalculateAverage(r.confidences, r.empty, missing))
  }

  // ---- What the reader's lists contain ----

  function Select(fields: seq<Field>, sort: Class, threshold: real): seq<Field> {
    if fields == [] then []
    else if Classify(fields[0].data, threshold) == sort then [fields[0]] + Select(fields[1..], sort, threshold)
    else Select(fields[1..], sort, threshold)
  }

  function Confidences(fields: seq<Field>): seq<real> {
    seq(|fields|, i requires 0 <= i < |fields| => Confidence(fields[i].data))
  }

  function Pairs(fields: seq<Field>): seq<(string, real)> {
    seq(|fields|, i requires 0 <= i < |fields| => (fields[i].name, Confidence(fields[i].data)))
  }

  lemma SelectHead(fields: seq<Field>, sort: Class, threshold: real)
    requires fields != []
    ensures var f, rest := fields[0], Select(fields[1..], sort, threshold);
      var here := Classify(f.data, threshold) == sort;
      && Names(Select(fields, sort, threshold)) == (if here then [f.name] + Names(rest) else Names(rest))
      && Confidences(Select(fields, sort, threshold))
         == (if here then [Confidence(f.data)] + Confidences(rest) else Confidences(rest))
  {
    ConsLists(fields[0], Select(fields[1..], sort, threshold));
  }

  lemma ConsLists(f: Field, rest: seq<Field>)
    ensures Names([f] + rest) == [f.name] + Names(rest)
    ensures Confidences([f] + rest) == [Confidence(f.data)] + Confidences(rest)
  {
  }

  /** Every field is recorded once with its confidence, and its class decides the one list it joins. */
  ghost predicate Lists(r: ReaderResult, r': ReaderResult, fields: seq<Field>, threshold: real) {
    && r'.confidences == r.confidences + Pairs(fields)
    && r'.empty == r.empty + Names(Select(fields, Empty, threshold))
    && r'.missingGeometry == r.missingGeometry + Names(Select(fields, MissingGeometry, threshold))
    && r'.scores == r.scores + Confidences(Select(fields, Scored, threshold))
  }

  lemma RecordShape(r: ReaderResult, f: Field, threshold: real, geo: bool)
    requires f.data.Obj?
    ensures var r1, sort := Record(r, f, threshold, geo), Classify(f.data, threshold);
      && r1.confidences == r.confidences + [(f.name, Confidence(f.data))]
      && r1.empty == (if sort.Empty? then r.empty + [f.name] else r.empty)
      && r1.missingGeometry == (if sort.MissingGeometry? then r.missingGeometry + [f.name] else r.missingGeometry)
      && r1.scores == (if sort.Scored? then r.scores + [Confidence(f.data)] else r.scores)
  {
  }

  lemma PairsHead(fields: seq<Field>)
    requires fields != []
    ensures Pairs(fields) == [(fields[0].name, Confidence(fields[0].data))] + Pairs(fields[1..])
  {
  }

  lemma ListsCons(r: ReaderResult, r': ReaderResult, fields: seq<Field>, threshold: real, geo: bool)
    requires fields != [] && fields[0].data.Obj?
    requires Lists(Record(r, fields[0], threshold, geo), r', fields[1..], threshold)
    ensures Lists(r, r', fields, threshold)
  {
    var f, rest := fields[0], fields[1..];
    var name, confidence, sort := f.name, Confidence(f.data), Classify(f.data, threshold);
    SelectHead(fields, Empty, threshold);
    SelectHead(fields, MissingGeometry, threshold);
    SelectHead(fields, Scored, threshold);
    PairsHead(fields);
    RecordShape(r, f, threshold, geo);
    AppendHead(r.confidences, true, (name, confidence), Pairs(rest));
    AppendHead(r.empty, sort.Empty?, name, Names(Select(rest, Empty, threshold)));
    AppendHead(r.missingGeometry, sort.MissingGeometry?, name, Names(Select(rest, MissingGeometry, threshold)));
    AppendHead(r.scores, sort.Scored?, confidence, Confidences(Select(rest, Scored, threshold)));
  }

  lemma AppendHead<T>(xs: seq<T>, here: bool, x: T, rest: seq<T>)
    ensures (if here then xs + [x] else xs) + rest == xs + (if here then [x] + rest else rest)
  {
  }

  lemma {:induction false} RecordedLists(r: ReaderResult, fields: seq<Field>, threshold: real, geo: bool)
    requires AllObjects(fields)
    ensures Lists(r, RecordAll(r, fields, threshold, geo), fields, threshold)
    decreases |fields|
  {
    if fields != [] {
      RecordedLists(Record(r, fields[0], threshold, geo), fields[1..], threshold, geo);
      ListsCons(r, RecordAll(r, fields, threshold, geo), fields, threshold, geo);
    }
  }

  /** The reader's lists, from an empty start. */
  lemma ResultLists(fields: seq<Field>, threshold: real, geo: bool)
    requires AllObjects(fields)
    ensures var r := RecordAll(EMPTY_RESULT, fields, threshold, geo);
      && r.confidences == Pairs(fields)
      && r.empty == Names(Select(fields, Empty, threshold))
      && r.missingGeometry == Names(Select(fields, MissingGeometry, threshold))
      && r.scores == Confidences(Select(fields, Scored, threshold))
  {
    RecordedLists(EMPTY_RESULT, fields, threshold, geo);
  }

  lemma {:induction false} SelectContains(fields: seq<Field>, sort: Class, threshold: real, f: Field)
    ensures f in Select(fields, sort, threshold) <==> f in fields && Classify(f.data, threshold) == sort
  {
    if fields != [] {
      SelectContains(fields[1..], sort, threshold, f);
      assert f in fields <==> f == fields[0] || f in fields[1..];
    }
  }

  lemma {:induction false} SelectSizes(fields: seq<Field>, threshold: real)
    ensures |Select(fields, Empty, threshold)| + |Select(fields, MissingGeometry, threshold)|
          + |Select(fields, Scored, threshold)| == |fields|
  {
    if fields != [] {
      SelectSizes(fields[1..], threshold);
    }
  }

  lemma NameListed(fields: seq<Field>, f: Field)
    requires f in fields
    ensures f.name in Names(fields)
  {
    var i :| 0 <= i < |fields| && fields[i] == f;
    assert Names(fields)[i] == f.name;
  }

  lemma NameOrigin(fields: seq<Field>, name: string) returns (f: Field)
    requires name in Names(fields)
    ensures f in fields && f.name == name
  {
    var i :| 0 <= i < |fields| && Names(fields)[i] == name;
    f := fields[i];
  }

  /** No field that was scored shares its name with one that was not. */
  ghost predicate NoClash(fields: seq<Field>, threshold: real) {
    forall f, g :: f in fields && g in fields && Classify(f.data, threshold).Scored? && !Classify(g.data, threshold).Scored? ==>
      f.name != g.name
  }

  ghost predicate NoneExcluded(fields: seq<Field>, threshold: real, excluded: set<string>) {
    forall f :: f in fields && Classify(f.data, threshold).Scored? ==> f.name !in excluded
  }

  /** With every unscored name excluded, what is kept is at most the scored list, and all of
      it exactly when no scored name is excluded. */
  lemma {:induction false} KeptVersusScored(fields: seq<Field>, threshold: real, excluded: set<string>)
    requires forall f :: f in fields && !Classify(f.data, threshold).Scored? ==> f.name in excluded
    ensures var kept, scored := Kept(Pairs(fields), excluded), Confidences(Select(fields, Scored, threshold));
      && |kept| <= |scored|
      && (kept == scored <==> NoneExcluded(fields, threshold, excluded))
      && (kept != scored ==> |kept| < |scored|)
  {
    if fields != [] {
      var f, rest := fields[0], fields[1..];
      assert forall g :: g in fields <==> g == f || g in rest;
      KeptVersusScored(rest, threshold, excluded);
      assert Pairs(fields)[1..] == Pairs(rest);
      var kept, scored := Kept(Pairs(rest), excluded), Confidences(Select(rest, Scored, threshold));
      if Classify(f.data, threshold).Scored? {
        assert Confidences(Select(fields, Scored, threshold)) == [Confidence(f.data)] + scored;
        if f.name !in excluded {
          assert Kept(Pairs(fields), excluded) == [Confidence(f.data)] + kept;
          assert kept == ([Confidence(f.data)] + kept)[1..] && scored == ([Confidence(f.data)] + scored)[1..];
        }
      }
    }
  }

  lemma ExcludedNames(fields: seq<Field>, threshold: real, name: string)
    ensures name in ToSet(Names(Select(fields, Empty, threshold))) + ToSet(Names(Select(fields, MissingGeometry, threshold)))
       <==> exists g :: g in fields && g.name == name && !Classify(g.data, threshold).Scored?
  {
    var empty, missing := Select(fields, Empty, threshold), Select(fields, MissingGeometry, threshold);
    if name in Names(empty) {
      var g := NameOrigin(empty, name);
      SelectContains(fields, Empty, threshold, g);
    } else if name in Names(missing) {
      var g := NameOrigin(missing, name);
      SelectContains(fields, MissingGeometry, threshold, g);
    }
    forall g | g in fields && g.name == name && !Classify(g.data, threshold).Scored?
      ensures name in Names(empty) || name in Names(missing)
    {
      var sort := Classify(g.data, threshold);
      SelectContains(fields, sort, threshold, g);
      NameListed(Select(fields, sort, threshold), g);
    }
  }

  function Excluded(fields: seq<Field>, threshold: real): set<string> {
    ToSet(Names(Select(fields, Empty, threshold))) + ToSet(Names(Select(fields, MissingGeometry, threshold)))
  }

  lemma NoneExcludedIffNoClash(fields: seq<Field>, threshold: real)
    ensures NoneExcluded(fields, threshold, Excluded(fields, threshold)) <==> NoClash(fields, threshold)
    ensures forall f :: f in fields && !Classify(f.data, threshold).Scored? ==> f.name in Excluded(fields, threshold)
  {
    var excluded := Excluded(fields, threshold);
    forall f | f in fields
      ensures f.name in excluded <==> exists g :: g in fields && g.name == f.name && !Classify(g.data, threshold).Scored?
    {
      ExcludedNames(fields, threshold, f.name);
    }
    if !NoClash(fields, threshold) {
      var f, g :| f in fields && g in fields && Classify(f.data, threshold).Scored?
               && !Classify(g.data, threshold).Scored? && f.name == g.name;
      assert f.name in excluded;
    }
  }

  lemma KeptAgreesIff(fields: seq<Field>, threshold: real)
    ensures Kept(Pairs(fields), Excluded(fields, threshold)) == Confidences(Select(fields, Scored, threshold))
       <==> NoClash(fields, threshold)
  {
    NoneExcludedIffNoClash(fields, threshold);
    KeptVersusScored(fields, threshold, Excluded(fields, threshold));
  }

  /** The confidences that the average keeps by name are the reader's scored list exactly when
      no scored field shares its name with an empty or missing-geometry one. */
  lemma AverageAgreesIff(items: seq<Json>, flag: bool, geo: bool)
    ensures var fields, r := AllFields(items), RecordAll(EMPTY_RESULT, AllFields(items), Threshold(flag), geo);
      && (Kept(r.confidences, ToSet(r.empty) + ToSet(r.missingGeometry)) == r.scores <==> NoClash(fields, Threshold(flag)))
      && (NoClash(fields, Threshold(flag)) ==>
            CalculateAverage(r.confidences, r.empty, r.missingGeometry) == Mean(r.scores))
  {
    ResultLists(AllFields(items), Threshold(flag), geo);
    KeptAgreesIff(AllFields(items), Threshold(flag));
  }

  lemma DistinctNoClash(fields: seq<Field>, threshold: real)
    requires DistinctNames(fields)
    ensures NoClash(fields, threshold)
  {
    forall f, g | f in fields && g in fields && f.name == g.name ensures f == g {
      var i :| 0 <= i < |fields| && fields[i] == f;
      var j :| 0 <= j < |fields| && fields[j] == g;
    }
  }

  /** For one tree with plain keys the names are distinct, so the average is always the mean
      of the scored list. */
  lemma OneTreeAgrees(tree: Json, flag: bool, geo: bool)
    requires tree.Obj? && Plain(ReaderKind, tree.members)
    ensures AllFields([tree]) == Leaves(ReaderKind, tree.members, "")
    ensures DistinctNames(AllFields([tree]))
    ensures var r := RecordAll(EMPTY_RESULT, AllFields([tree]), Threshold(flag), geo);
      CalculateAverage(r.confidences, r.empty, r.missingGeometry) == Mean(r.scores)
  {
    assert AllFields([tree][1..]) == [];
    NamesAreDistinct(ReaderKind, tree.members);
    DistinctNoClash(AllFields([tree]), Threshold(flag));
    AverageAgreesIff([tree], flag, geo);
  }

  lemma {:induction false} KeptCount(fields: seq<Field>, excluded: set<string>, threshold: real, sort: Class)
    requires forall f :: f in fields ==> (f.name in excluded <==> Classify(f.data, threshold) == sort)
    ensures |Kept(Pairs(fields), excluded)| == |fields| - |Select(fields, sort, threshold)|
  {
    if fields != [] {
      assert forall g :: g in fields[1..] ==> g in fields;
      KeptCount(fields[1..], excluded, threshold, sort);
      assert Pairs(fields)[1..] == Pairs(fields[1..]);
      assert fields[0] in fields;
    }
  }

  /** For distinct names, the metrics count and average exactly the scored fields if and only if
      missing geometry counts as missing, or no field was classified so. */
  lemma MetricsAgreeIff(fields: seq<Field>, flag: bool, geo: bool)
    requires AllObjects(fields) && DistinctNames(fields)
    ensures var r := RecordAll(EMPTY_RESULT, fields, Threshold(flag), geo);
      && (CalculateFieldMetrics(r, flag).notEmpty == |r.scores| <==> flag || r.missingGeometry == [])
      && (flag || r.missingGeometry == [] ==> CalculateFieldMetrics(r, flag).average == Mean(r.scores))
      && CalculateFieldMetrics(r, flag).count == |r.empty| + |r.missingGeometry| + |r.scores|
  {
    var threshold := Threshold(flag);
    ResultLists(fields, threshold, geo);
    DistinctNoClash(fields, threshold);
    SelectSizes(fields, threshold);
    KeptAgreesIff(fields, threshold);
    EmptyCount(fields, threshold);
    var empty := Names(Select(fields, Empty, threshold));
    assert ToSet(empty) + ToSet([]) == ToSet(empty);
  }

  lemma EmptyCount(fields: seq<Field>, threshold: real)
    requires DistinctNames(fields)
    ensures |Kept(Pairs(fields), ToSet(Names(Select(fields, Empty, threshold))))|
         == |fields| - |Select(fields, Empty, threshold)|
  {
    var empty := Select(fields, Empty, threshold);
    forall f | f in fields ensures f.name in ToSet(Names(empty)) <==> Classify(f.data, threshold) == Empty {
      SelectContains(fields, Empty, threshold, f);
      if f in empty {
        NameListed(empty, f);
      }
      if f.name in Names(empty) {
        var g := NameOrigin(empty, f.name);
        SelectContains(fields, Empty, threshold, g);
        var i :| 0 <= i < |fields| && fields[i] == f;
        var j :| 0 <= j < |fields| && fields[j] == g;
      }
    }
    KeptCount(fields, ToSet(Names(empty)), threshold, Empty);
  }

  lemma {:induction false} SelectNone(fields: seq<Field>, sort: Class, threshold: real)
    requires forall f :: f in fields ==> Classify(f.data, threshold) != sort
    ensures Select(fields, sort, threshold) == []
  {
    if fields != [] {
      assert fields[0] in fields;
      SelectNone(fields[1..], sort, threshold);
    }
  }

  /** With the flag off only a negative confidence can be classified as missing geometry. */
  lemma MissingOnlyWhenNegative(fields: seq<Field>, geo: bool)
    requires AllObjects(fields)
    requires forall f :: f in fields ==> Confidence(f.data) >= 0.0
    ensures RecordAll(EMPTY_RESULT, fields, Threshold(false), geo).missingGeometry == []
  {
    ResultLists(fields, Threshold(false), geo);
    SelectNone(fields, MissingGeometry, Threshold(false));
  }

  // ---- The values and geometries by name ----

  lemma {:induction false} OtherNamesKept(r: ReaderResult, fields: seq<Field>, threshold: real, geo: bool, name: string)
    requires AllObjects(fields) && forall f :: f in fields ==> f.name != name
    ensures var r' := RecordAll(r, fields, threshold, geo);
      && (name in r'.values <==> name in r.values) && (name in r.values ==> r'.values[name] == r.values[name])
      && (name in r'.geometry <==> name in r.geometry) && (name in r.geometry ==> r'.geometry[name] == r.geometry[name])
    decreases |fields|
  {
    if fields != [] {
      assert fields[0] in fields;
      OtherNamesKept(Record(r, fields[0], threshold, geo), fields[1..], threshold, geo, name);
    }
  }

  ghost predicate HoldsField(r: ReaderResult, f: Field, geo: bool)
    requires f.data.Obj?
  {
    && f.name in r.values && r.values[f.name] == Get(f.data.members, "value")
    && (f.name in r.geometry <==> geo && Get(f.data.members, "geometry") != None)
    && (f.name in r.geometry ==>
          r.geometry[f.name] == Geometry(Get(f.data.members, "type"), Get(f.data.members, "geometry").value))
  }

  /** Under distinct names each field's value, and its geometry when asked for, is found under
      its name. */
  lemma {:induction false} FieldsAreHeld(r: ReaderResult, fields: seq<Field>, threshold: real, geo: bool, i: nat)
    requires AllObjects(fields) && DistinctNames(fields) && i < |fields| && fields[i].name !in r.geometry
    ensures HoldsField(RecordAll(r, fields, threshold, geo), fields[i], geo)
    decreases |fields|
  {
    var r1 := Record(r, fields[0], threshold, geo);
    if i == 0 {
      assert HoldsField(r1, fields[0], geo);
      OtherNamesKept(r1, fields[1..], threshold, geo, fields[0].name);
    } else {
      assert fields[0].name != fields[i].name;
      FieldsAreHeld(r1, fields[1..], threshold, geo, i - 1);
    }
  }

  // ---- The names clash when a key holds a dot or is empty ----

  function FieldObject(text: string, confidence: real): Json {
    Obj([Member(VALUE, Str(text)), Member(CONFIDENCE, Num(confidence)), Member(GEOMETRY, Null)])
  }

  /** An empty field and a scored one under the names one tree gives them. */
  ghost predicate Clashes(members: seq<Member>) {
    var fields := Leaves(ReaderKind, members, "");
    |fields| == 2 && fields[0].name == fields[1].name && IsEmpty(fields[0].data) && !IsEmpty(fields[1].data)
  }

  lemma KeysMustBePlain()
    ensures Clashes([Member("a.b", FieldObject("", 0.5)), Member("a", Obj([Member("b", FieldObject("x", 0.5))]))])
    ensures Clashes([Member("", Obj([Member("a", FieldObject("", 0.5))])), Member("a", FieldObject("x", 0.5))])
  {
    var none, some := FieldObject("", 0.5), FieldObject("x", 0.5);
    LeafThenGroup("a.b", none, "a", "b", some);
    GroupThenLeaf("", "a", none, "a", some);
    assert Qualify("a", "b") == "a.b";
  }

  lemma Pair(k: string, v: Json, l: string, w: Json)
    ensures Leaves(ReaderKind, [Member(k, v), Member(l, w)], "")
         == MemberLeaves(ReaderKind, [Member(k, v), Member(l, w)], "") + MemberLeaves(ReaderKind, [Member(l, w)], "")
  {
    var both, last := [Member(k, v), Member(l, w)], [Member(l, w)];
    assert both[1..] == last && last[1..] == [];
    assert Leaves(ReaderKind, last, "") == MemberLeaves(ReaderKind, last, "") + Leaves(ReaderKind, [], "");
    assert Leaves(ReaderKind, both, "") == MemberLeaves(ReaderKind, both, "") + Leaves(ReaderKind, last, "");
  }

  lemma NotALeaf(inner: string, w: Json)
    requires inner != CONFIDENCE && inner != VALUE
    ensures ReaderKind(Obj([Member(inner, w)])).Group?
  {
    var members := [Member(inner, w)];
    assert members[1..] == [];
    assert Get(members, CONFIDENCE) == Get([], CONFIDENCE) && Get(members, VALUE) == Get([], VALUE);
  }

  lemma OneLeaf(parent: string, k: string, v: Json)
    requires ReaderKind(v).Leaf?
    ensures Leaves(ReaderKind, [Member(k, v)], parent) == [Field(Qualify(parent, k), v)]
  {
    assert [Member(k, v)][1..] == [];
  }

  lemma LeafThenGroup(k: string, v: Json, l: string, inner: string, w: Json)
    requires ReaderKind(v).Leaf? && ReaderKind(w).Leaf? && inner != CONFIDENCE && inner != VALUE
    ensures Leaves(ReaderKind, [Member(k, v), Member(l, Obj([Member(inner, w)]))], "")
         == [Field(k, v), Field(Qualify(l, inner), w)]
  {
    Pair(k, v, l, Obj([Member(inner, w)]));
    NotALeaf(inner, w);
    OneLeaf(l, inner, w);
  }

  lemma GroupThenLeaf(k: string, inner: string, v: Json, l: string, w: Json)
    requires ReaderKind(v).Leaf? && ReaderKind(w).Leaf? && inner != CONFIDENCE && inner != VALUE
    ensures Leaves(ReaderKind, [Member(k, Obj([Member(inner, v)])), Member(l, w)], "")
         == [Field(Qualify(k, inner), v), Field(l, w)]
  {
    Pair(k, Obj([Member(inner, v)]), l, w);
    NotALeaf(inner, v);
    OneLeaf(k, inner, v);
  }
}
