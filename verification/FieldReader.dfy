/** Reading extracted fields out of a result tree, and the two later computations
    that must agree with what the reader classified. */
module FieldReader {
  import opened Common
  import opened FieldTree

  const CONFIDENCE := "confidence"
  const VALUE := "value"
  const GEOMETRY := "geometry"
  const TYPE := "type"

  const MISSING_GEOMETRY_CONFIDENCE_THRESHOLD := 0.25

  /** An object with a confidence or a value is a field, any other object a group of fields. */
  function ReaderKind(v: Json): Kind {
    if !v.Obj? then Skip
    else if Has(v.members, CONFIDENCE) || Has(v.members, VALUE) then Leaf
    else Group
  }

  function Confidence(field: Json): real {
    if field.Obj? && Has(field.members, CONFIDENCE) && Get(field.members, CONFIDENCE).value.Num?
    then Get(field.members, CONFIDENCE).value.n
    else 0.0
  }

  /** The value is absent or prints as the empty string. */
  predicate IsEmpty(field: Json) {
    field.Obj? && (Has(field.members, VALUE) ==> Get(field.members, VALUE).value == Str(""))
  }

  predicate HasGeometry(field: Json) { field.Obj? && Has(field.members, GEOMETRY) }

  function Threshold(missingGeometryCounts: bool): real {
    if missingGeometryCounts then MISSING_GEOMETRY_CONFIDENCE_THRESHOLD else 0.0
  }

  datatype Class = Empty | MissingGeometry | Scored

  function Classify(field: Json, threshold: real): Class {
    if IsEmpty(field) then Empty
    else if !HasGeometry(field) && Confidence(field) < threshold then MissingGeometry
    else Scored
  }

  datatype Geometry = Geometry(fieldType: Option<Json>, geometry: Json)

  datatype ReaderResult = ReaderResult(
    confidences: seq<(string, real)>,
    values: map<string, Option<Json>>,
    geometry: map<string, Geometry>,
    empty: seq<string>,
    missingGeometry: seq<string>,
    scores: seq<real>)

  const EMPTY_RESULT := ReaderResult([], map[], map[], [], [], [])

  /** What one field adds. */
  function Record(r: ReaderResult, f: Field, threshold: real, includeGeometry: bool): ReaderResult
    requires f.data.Obj?
  {
    var confidence := Confidence(f.data);
    ReaderResult(
      r.confidences + [(f.name, confidence)],
      r.values[f.name := Get(f.data.members, VALUE)],
      if includeGeometry && HasGeometry(f.data)
      then r.geometry[f.name := Geometry(Get(f.data.members, TYPE), Get(f.data.members, GEOMETRY).value)]
      else r.geometry,
      if Classify(f.data, threshold).Empty? then r.empty + [f.name] else r.empty,
      if Classify(f.data, threshold).MissingGeometry? then r.missingGeometry + [f.name] else r.missingGeometry,
      if Classify(f.data, threshold).Scored? then r.scores + [confidence] else r.scores)
  }

  predicate AllObjects(fields: seq<Field>) { forall f :: f in fields ==> f.data.Obj? }

  function RecordAll(r: ReaderResult, fields: seq<Field>, threshold: real, includeGeometry: bool): ReaderResult
    requires AllObjects(fields)
    decreases |fields|
  {
    if fields == [] then r
    else RecordAll(Record(r, fields[0], threshold, includeGeometry), fields[1..], threshold, includeGeometry)
  }

  lemma {:induction false} RecordAllConcat(r: ReaderResult, a: seq<Field>, b: seq<Field>, threshold: real, geo: bool)
    requires AllObjects(a) && AllObjects(b)
    ensures AllObjects(a + b)
    ensures RecordAll(r, a + b, threshold, geo) == RecordAll(RecordAll(r, a, threshold, geo), b, threshold, geo)
    decreases |a|
  {
    if a == [] {
      assert a + b == b;
    } else {
      assert (a + b)[0] == a[0] && (a + b)[1..] == a[1..] + b;
      RecordAllConcat(Record(r, a[0], threshold, geo), a[1..], b, threshold, geo);
    }
  }

  lemma {:induction false} LeavesAreObjects(members: seq<Member>, parent: string)
    ensures AllObjects(Leaves(ReaderKind, members, parent))
    decreases members
  {
    if members != [] {
      LeavesAreObjects(members[1..], parent);
      if ReaderKind(members[0].value).Group? {
        LeavesAreObjects(members[0].value.members, Qualify(parent, members[0].key));
      }
    }
  }

  // ---- The classes in a field's own members ----

  /** The confidence a field carries; one that carries none, or no number, counts as 0. */
  function ScoreOf(f: Field): real {
    if !f.data.Obj? then 0.0
    else match Get(f.data.members, "confidence")
      case Some(Num(n)) => n
      case _ => 0.0
  }

  predicate HasNoValue(f: Field) {
    f.data.Obj? && (Get(f.data.members, "value") == None || Get(f.data.members, "value") == Some(Str("")))
  }

  /** A value without a geometry whose confidence is below the threshold. */
  predicate Unplaced(f: Field, threshold: real) {
    && f.data.Obj?
    && Get(f.data.members, "value") != None && Get(f.data.members, "value") != Some(Str(""))
    && Get(f.data.members, "geometry") == None
    && ScoreOf(f) < threshold
  }

  lemma ClassMeans(f: Field, threshold: real)
    requires f.data.Obj?
    ensures Confidence(f.data) == ScoreOf(f)
    ensures Classify(f.data, threshold) == Empty <==> HasNoValue(f)
    ensures Classify(f.data, threshold) == MissingGeometry <==> Unplaced(f, threshold)
  {
  }

  function Names(fields: seq<Field>): seq<string> {
    seq(|fields|, i requires 0 <= i < |fields| => fields[i].name)
  }

  function Scores(fields: seq<Field>): seq<real> {
    seq(|fields|, i requires 0 <= i < |fields| => ScoreOf(fields[i]))
  }

  function Scoring(threshold: real): Field -> bool { f => !HasNoValue(f) && !Unplaced(f, threshold) }

  function UnplacedAt(threshold: real): Field -> bool { f => Unplaced(f, threshold) }

  lemma NamesCons(f: Field, rest: seq<Field>)
    ensures Names([f] + rest) == [f.name] + Names(rest) && Scores([f] + rest) == [ScoreOf(f)] + Scores(rest)
  {
  }

  /** Recording appends to each list the fields of its class, in order. */
  ghost predicate Appends(r: ReaderResult, r': ReaderResult, fields: seq<Field>, threshold: real) {
    && r'.empty == r.empty + Names(Filter(fields, HasNoValue))
    && r'.missingGeometry == r.missingGeometry + Names(Filter(fields, UnplacedAt(threshold)))
    && r'.scores == r.scores + Scores(Filter(fields, Scoring(threshold)))
  }

  lemma AppendsNothing(r: ReaderResult, threshold: real)
    ensures Appends(r, r, [], threshold)
  {
  }

  lemma AppendsOne(r: ReaderResult, f: Field, threshold: real, geo: bool)
    requires f.data.Obj?
    ensures var r1 := Record(r, f, threshold, geo);
      && r1.empty == (if HasNoValue(f) then r.empty + [f.name] else r.empty)
      && r1.missingGeometry == (if Unplaced(f, threshold) then r.missingGeometry + [f.name] else r.missingGeometry)
      && r1.scores == (if Scoring(threshold)(f) then r.scores + [ScoreOf(f)] else r.scores)
  {
    ClassMeans(f, threshold);
  }

  lemma ListCons(xs: seq<string>, here: bool, f: Field, rest: seq<Field>)
    ensures (if here then xs + [f.name] else xs) + Names(rest) == xs + Names(if here then [f] + rest else rest)
  {
    NamesCons(f, rest);
    Associative(xs, [f.name], Names(rest));
  }

  lemma ScoreCons(xs: seq<real>, here: bool, f: Field, rest: seq<Field>)
    ensures (if here then xs + [ScoreOf(f)] else xs) + Scores(rest) == xs + Scores(if here then [f] + rest else rest)
  {
    NamesCons(f, rest);
    Associative(xs, [ScoreOf(f)], Scores(rest));
  }

  lemma AppendsMore(r: ReaderResult, r1: ReaderResult, r': ReaderResult, f: Field, rest: seq<Field>, threshold: real, geo: bool)
    requires f.data.Obj? && r1 == Record(r, f, threshold, geo) && Appends(r1, r', rest, threshold)
    ensures Appends(r, r', [f] + rest, threshold)
  {
    AppendsOne(r, f, threshold, geo);
    FilterCons(f, rest, HasNoValue);
    FilterCons(f, rest, UnplacedAt(threshold));
    FilterCons(f, rest, Scoring(threshold));
    ListCons(r.empty, HasNoValue(f), f, Filter(rest, HasNoValue));
    ListCons(r.missingGeometry, Unplaced(f, threshold), f, Filter(rest, UnplacedAt(threshold)));
    ScoreCons(r.scores, Scoring(threshold)(f), f, Filter(rest, Scoring(threshold)));
  }

  lemma {:induction false} RecordAllAppends(r: ReaderResult, fields: seq<Field>, threshold: real, geo: bool)
    requires AllObjects(fields)
    ensures Appends(r, RecordAll(r, fields, threshold, geo), fields, threshold)
    decreases |fields|
  {
    if fields == [] {
      AppendsNothing(r, threshold);
    } else {
      var r1 := Record(r, fields[0], threshold, geo);
      RecordAllAppends(r1, fields[1..], threshold, geo);
      assert fields == [fields[0]] + fields[1..];
      AppendsMore(r, r1, RecordAll(r, fields, threshold, geo), fields[0], fields[1..], threshold, geo);
    }
  }

  lemma NamedIff(fields: seq<Field>, keep: Field -> bool, name: string)
    ensures name in Names(Filter(fields, keep)) <==> exists f :: f in fields && keep(f) && f.name == name
  {
    var kept := Filter(fields, keep);
    if name in Names(kept) {
      var i :| 0 <= i < |kept| && Names(kept)[i] == name;
      FilterContains(fields, keep, kept[i]);
    }
    if f :| f in fields && keep(f) && f.name == name {
      FilterContains(fields, keep, f);
      var i :| 0 <= i < |kept| && kept[i] == f;
      assert Names(kept)[i] == name;
    }
  }

  /** The lists and dictionaries that the recursive walk fills in. */
  class Lists {
    var confidences: seq<(string, real)>
    var values: map<string, Option<Json>>
    var geometry: map<string, Geometry>
    var empty: seq<string>
    var missingGeometry: seq<string>
    var scores: seq<real>

    ghost function View(): ReaderResult
      reads this
    {
      ReaderResult(confidences, values, geometry, empty, missingGeometry, scores)
    }

    constructor ()
      ensures View() == EMPTY_RESULT
    {
      confidences, values, geometry, empty, missingGeometry, scores := [], map[], map[], [], [], [];
    }

    method ExtractFields(data: seq<Member>, parent: string, threshold: real, includeGeometry: bool)
      modifies this
      ensures AllObjects(Leaves(ReaderKind, data, parent))
      ensures View() == RecordAll(old(View()), Leaves(ReaderKind, data, parent), threshold, includeGeometry)
      decreases data
    {
      LeavesAreObjects(data, parent);
      assert data[0..] == data;
      for i := 0 to |data|
        invariant AllObjects(Leaves(ReaderKind, data[i..], parent))
        invariant RecordAll(View(), Leaves(ReaderKind, data[i..], parent), threshold, includeGeometry)
               == RecordAll(old(View()), Leaves(ReaderKind, data, parent), threshold, includeGeometry)
      {
        var name, field := Qualify(parent, data[i].key), data[i].value;
        ghost var before, head := View(), MemberLeaves(ReaderKind, data[i..], parent);
        assert data[i..][1..] == data[i + 1..];
        LeavesAreObjects(data[i + 1..], parent);
        assert Leaves(ReaderKind, data[i..], parent) == head + Leaves(ReaderKind, data[i + 1..], parent);
        if field.Obj? {
          if Has(field.members, CONFIDENCE) || Has(field.members, VALUE) {
            AddField(name, field, threshold, includeGeometry);
            assert head == [Field(name, field)];
            assert View() == RecordAll(Record(before, head[0], threshold, includeGeometry), [], threshold, includeGeometry);
          } else {
            ExtractFields(field.members, name, threshold, includeGeometry);
          }
        } else {
          assert head == [];
        }
        assert View() == RecordAll(before, head, threshold, includeGeometry);
        RecordAllConcat(before, head, Leaves(ReaderKind, data[i + 1..], parent), threshold, includeGeometry);
      }
      assert data[|data|..] == [];
    }

    method AddField(name: string, field: Json, threshold: real, includeGeometry: bool)
      requires field.Obj?
      modifies this
      ensures View() == Record(old(View()), Field(name, field), threshold, includeGeometry)
      ensures var f := Field(name, field);
        && confidences == old(confidences) + [(name, ScoreOf(f))]
        && values == old(values)[name := Get(field.members, "value")]
        && empty == (if HasNoValue(f) then old(empty) + [name] else old(empty))
        && missingGeometry == (if Unplaced(f, threshold) then old(missingGeometry) + [name] else old(missingGeometry))
        && scores == (if !HasNoValue(f) && !Unplaced(f, threshold) then old(scores) + [ScoreOf(f)] else old(scores))
      ensures geometry ==
        if includeGeometry && Get(field.members, "geometry").Some?
        then old(geometry)[name := Geometry(Get(field.members, "type"), Get(field.members, "geometry").value)]
        else old(geometry)
    {
      ClassMeans(Field(name, field), threshold);
      var confidence := Confidence(field);
      confidences := confidences + [(name, confidence)];
      if IsEmpty(field) {
        empty := empty + [name];
      } else if !HasGeometry(field) && confidence < threshold {
        missingGeometry := missingGeometry + [name];
      } else {
        scores := scores + [confidence];
      }
      values := values[name := Get(field.members, VALUE)];
      if includeGeometry && Has(field.members, GEOMETRY) {
        geometry := geometry[name := Geometry(Get(field.members, TYPE), Get(field.members, GEOMETRY).value)];
      }
    }
  }

  /** The fields of every object in the explainability list, each walked from the root. */
  function AllFields(items: seq<Json>): (fields: seq<Field>)
    ensures AllObjects(fields)
  {
    if items == [] then []
    else
      var rest := AllFields(items[1..]);
      if items[0].Obj? then
        LeavesAreObjects(items[0].members, "");
        Leaves(ReaderKind, items[0].members, "") + rest
      else rest
  }

  method ReadBdaOutput(items: seq<Json>, missingGeometryCounts: bool,
                       includeGeometry: bool) returns (result: ReaderResult)
    ensures result == RecordAll(EMPTY_RESULT, AllFields(items), Threshold(missingGeometryCounts), includeGeometry)
    ensures var below := if missingGeometryCounts then 0.25 else 0.0;
      && result.empty == Names(Filter(AllFields(items), HasNoValue))
      && result.missingGeometry == Names(Filter(AllFields(items), UnplacedAt(below)))
      && result.scores == Scores(Filter(AllFields(items), Scoring(below)))
  {
    RecordAllAppends(EMPTY_RESULT, AllFields(items), Threshold(missingGeometryCounts), includeGeometry);
    var threshold := Threshold(missingGeometryCounts);
    var lists := new Lists();
    assert items[0..] == items;
    for i := 0 to |items|
      invariant RecordAll(lists.View(), AllFields(items[i..]), threshold, includeGeometry)
             == RecordAll(EMPTY_RESULT, AllFields(items), threshold, includeGeometry)
    {
      assert items[i..][1..] == items[i + 1..];
      if items[i].Obj? {
        ghost var before := lists.View();
        lists.ExtractFields(items[i].members, "", threshold, includeGeometry);
        RecordAllConcat(before, Leaves(ReaderKind, items[i].members, ""), AllFields(items[i + 1..]), threshold, includeGeometry);
      }
    }
    assert items[|items|..] == [];
    result := ReaderResult(lists.confidences, lists.values, lists.geometry, lists.empty, lists.missingGeometry, lists.scores);
  }

  /** A field of any object of the list, walked from that object's root, is read, and no other. */
  lemma {:induction false} AllFieldsContain(items: seq<Json>, f: Field)
    ensures f in AllFields(items) <==>
      exists i :: 0 <= i < |items| && items[i].Obj? && f in Leaves(ReaderKind, items[i].members, "")
  {
    if items != [] {
      AllFieldsContain(items[1..], f);
      assert forall i :: 1 <= i < |items| ==> items[i] == items[1..][i - 1];
    }
  }

  /** A name is reported missing exactly when some field of that name has a value that is not
      empty, no geometry, and a confidence below 0.25, or below 0 with the feature off; it is
      reported empty exactly when some field of that name has no value or an empty one. */
  lemma ReportedIff(items: seq<Json>, missingGeometryCounts: bool, geo: bool, name: string)
    ensures var result := RecordAll(EMPTY_RESULT, AllFields(items), Threshold(missingGeometryCounts), geo);
      && (name in result.missingGeometry <==>
            exists f :: f in AllFields(items) && f.name == name
              && Get(f.data.members, "value") != None && Get(f.data.members, "value") != Some(Str(""))
              && Get(f.data.members, "geometry") == None
              && ScoreOf(f) < if missingGeometryCounts then 0.25 else 0.0)
      && (name in result.empty <==>
            exists f :: f in AllFields(items) && f.name == name
              && (Get(f.data.members, "value") == None || Get(f.data.members, "value") == Some(Str(""))))
  {
    var fields, below := AllFields(items), Threshold(missingGeometryCounts);
    RecordAllAppends(EMPTY_RESULT, fields, below, geo);
    NamedIff(fields, UnplacedAt(below), name);
    NamedIff(fields, HasNoValue, name);
  }

  /** An object that carries neither a confidence nor a value. */
  predicate IsGroup(v: Json) {
    v.Obj? && Get(v.members, "confidence") == None && Get(v.members, "value") == None
  }

  /** The reader's leaves are the objects with a confidence or a value that only objects with
      neither lead to. */
  lemma ReadLeafIff(members: seq<Member>, path: Path, v: Json)
    ensures LeafAt(ReaderKind, members, path) == Some(v) <==>
      && path != [] && At(members, path) == Some(v)
      && v.Obj? && (Get(v.members, "confidence") != None || Get(v.members, "value") != None)
      && forall k :: 0 < k < |path| ==> At(members, path[..k]).Some? && IsGroup(At(members, path[..k]).value)
  {
    LeafAtIff(ReaderKind, members, path, v);
    assert forall j: Json :: ReaderKind(j).Group? <==> IsGroup(j);
  }
}
