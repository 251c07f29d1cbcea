/** Which required fields are missing, as computed when a document is processed and again when
    its result is read. Names compare without regard to case. */
module ExtractionRules {
  import opened Common
  import opened NameCase

  datatype Rule = Rule(requiredFields: set<string>, optionalFields: set<string>)

  datatype Applied<V> = Applied(fields: map<string, V>, missing: set<string>, required: set<string>)

  function Lowered(names: set<string>): set<string> { set f | f in names :: Lower(f) }

  /** At read time: keep the fields the rule allows and the missing list does not name. */
  function ApplyExtractionRules<V>(rule: Option<Rule>, fields: map<string, V>, missingFields: set<string>): Applied<V> {
    if rule.None? then Applied(fields, {}, {})
    else
      var required := rule.value.requiredFields;
      var allowed := Lowered(required + rule.value.optionalFields);
      var absent := Lowered(missingFields) * Lowered(required);
      var filtered := map k | k in fields && Lower(k) in allowed && Lower(k) !in absent :: fields[k];
      Applied(filtered, (set f | f in required && Lower(f) !in Lowered(filtered.Keys)), required)
  }

  /** At processing time: nothing without a tenant, a document type and a rule for them. */
  function GetMissingRequiredFields(tenant: Option<string>, documentType: Option<string>, rule: Option<Rule>,
                                    emptyFields: set<string>, missingGeometry: set<string>): Option<(set<string>, set<string>)> {
    if tenant in {None, Some("")} || documentType in {None, Some("")} || rule.None? then None
    else
      var required := rule.value.requiredFields;
      Some(((set f | f in required && Lower(f) in Lowered(emptyFields + missingGeometry)), required))
  }

  /** The required fields no extracted field goes by the name of. */
  function NeverExtracted<V>(required: set<string>, fields: map<string, V>): set<string> {
    set f | f in required && Lower(f) !in Lowered(fields.Keys)
  }

  function NamedIn(required: set<string>, names: set<string>): set<string> {
    set f | f in required && Lower(f) in Lowered(names)
  }

  lemma LoweredContains(names: set<string>, f: string)
    requires f in names
    ensures Lower(f) in Lowered(names)
  {
  }

  /** At read time a required field is missing exactly when the missing list names it or it was
      never extracted. */
  lemma MissingAtReadTime<V>(rule: Rule, fields: map<string, V>, missingFields: set<string>)
    ensures ApplyExtractionRules(Some(rule), fields, missingFields).missing
         == NamedIn(rule.requiredFields, missingFields) + NeverExtracted(rule.requiredFields, fields)
  {
    var applied := ApplyExtractionRules(Some(rule), fields, missingFields);
    var required := rule.requiredFields;
    forall f | f in required
      ensures Lower(f) in Lowered(applied.fields.Keys) <==>
        Lower(f) in Lowered(fields.Keys) && Lower(f) !in Lowered(missingFields)
    {
      LoweredContains(required, f);
      LoweredContains(required + rule.optionalFields, f);
      if Lower(f) in Lowered(fields.Keys) && Lower(f) !in Lowered(missingFields) {
        var k :| k in fields.Keys && Lower(k) == Lower(f);
        assert k in applied.fields.Keys;
      }
    }
  }

  lemma LoweredIff(names: set<string>, lowered: string)
    ensures lowered in Lowered(names) <==> exists f :: f in names && Lower(f) == lowered
  {
  }

  /** The fields that come back are those that go by the name of a required or an optional field,
      unless a name in the missing list and a required one are theirs too. Without a rule all do. */
  lemma FieldsReturned<V>(rule: Option<Rule>, fields: map<string, V>, missingFields: set<string>, k: string)
    ensures var returned := ApplyExtractionRules(rule, fields, missingFields).fields;
      && (k in returned ==> k in fields && returned[k] == fields[k])
      && (rule.None? ==> (k in fields ==> k in returned))
      && (rule.Some? ==> (k in returned <==>
            && k in fields
            && ((exists f :: f in rule.value.requiredFields && Lower(f) == Lower(k))
                || exists f :: f in rule.value.optionalFields && Lower(f) == Lower(k))
            && !((exists f :: f in rule.value.requiredFields && Lower(f) == Lower(k))
                 && exists m :: m in missingFields && Lower(m) == Lower(k))))
  {
    if rule.Some? {
      LoweredIff(rule.value.requiredFields + rule.value.optionalFields, Lower(k));
      LoweredIff(rule.value.requiredFields, Lower(k));
      LoweredIff(missingFields, Lower(k));
    }
  }

  /** A required field is reported as missing at read time when a name in the missing list is
      its own, or no extracted field's is; at processing time, in the first case only. */
  lemma MissingIff<V>(rule: Rule, fields: map<string, V>, emptyFields: set<string>, missingGeometry: set<string>,
                      tenant: Option<string>, documentType: Option<string>, f: string)
    ensures f in ApplyExtractionRules(Some(rule), fields, emptyFields + missingGeometry).missing <==>
      && f in rule.requiredFields
      && ((exists m :: m in emptyFields + missingGeometry && Lower(m) == Lower(f)) || forall k :: k in fields ==> Lower(k) != Lower(f))
    ensures var atProcessing := GetMissingRequiredFields(tenant, documentType, Some(rule), emptyFields, missingGeometry);
      && (atProcessing.None? <==> tenant == None || tenant == Some("") || documentType == None || documentType == Some(""))
      && (atProcessing.Some? ==> (f in atProcessing.value.0 <==>
            f in rule.requiredFields && exists m :: m in emptyFields + missingGeometry && Lower(m) == Lower(f)))
  {
    MissingAtReadTime(rule, fields, emptyFields + missingGeometry);
    LoweredIff(emptyFields + missingGeometry, Lower(f));
    LoweredIff(fields.Keys, Lower(f));
  }

  predicate OthersWereExtracted<V>(required: set<string>, names: set<string>, fields: map<string, V>) {
    forall f :: f in required && Lower(f) !in Lowered(names) ==> Lower(f) in Lowered(fields.Keys)
  }

  lemma NothingAddedIff<V>(required: set<string>, names: set<string>, fields: map<string, V>)
    ensures NamedIn(required, names) + NeverExtracted(required, fields) == NamedIn(required, names)
      <==> OthersWereExtracted(required, names, fields)
  {
    var named, never := NamedIn(required, names), NeverExtracted(required, fields);
    if OthersWereExtracted(required, names, fields) {
      assert named + never == named;
    } else {
      var f :| f in required && Lower(f) !in Lowered(names) && Lower(f) !in Lowered(fields.Keys);
      assert f in never && f !in named;
      assert f in named + never;
    }
  }

  /** Given the same missing list, reading finds what processing found and the required fields
      that were never extracted; the two agree exactly when every required field outside the
      missing list was extracted. */
  lemma ReadingAddsTheNeverExtracted<V>(tenant: string, documentType: string, rule: Rule, fields: map<string, V>,
                                        emptyFields: set<string>, missingGeometry: set<string>)
    returns (atProcessing: set<string>, atReading: set<string>)
    requires tenant != "" && documentType != ""
    ensures GetMissingRequiredFields(Some(tenant), Some(documentType), Some(rule), emptyFields, missingGeometry)
         == Some((atProcessing, rule.requiredFields))
    ensures atReading == ApplyExtractionRules(Some(rule), fields, emptyFields + missingGeometry).missing
    ensures atReading == atProcessing + NeverExtracted(rule.requiredFields, fields)
    ensures atReading == atProcessing <==> OthersWereExtracted(rule.requiredFields, emptyFields + missingGeometry, fields)
  {
    atProcessing := NamedIn(rule.requiredFields, emptyFields + missingGeometry);
    atReading := ApplyExtractionRules(Some(rule), fields, emptyFields + missingGeometry).missing;
    MissingAtReadTime(rule, fields, emptyFields + missingGeometry);
    NothingAddedIff(rule.requiredFields, emptyFields + missingGeometry, fields);
  }

  /** With the feature off the missing list is not consulted at read time, and the two agree
      exactly when the missing list names the required fields that were never extracted. */
  lemma WithoutTheListAgreeIff<V>(rule: Rule, fields: map<string, V>, emptyFields: set<string>,
                                  missingGeometry: set<string>)
    ensures ApplyExtractionRules(Some(rule), fields, {}).missing == NamedIn(rule.requiredFields, emptyFields + missingGeometry)
      <==> NeverExtracted(rule.requiredFields, fields) == NamedIn(rule.requiredFields, emptyFields + missingGeometry)
  {
    MissingAtReadTime(rule, fields, {});
    assert NamedIn(rule.requiredFields, {}) == {};
  }
}
