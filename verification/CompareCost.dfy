/** The two breakdowns of a comparison's cost, by model and by reason, in exact arithmetic. */
module CompareCost {
  import opened Common

  /** A dictionary in insertion order. */
  type Dict<V> = seq<(string, V)>

  function Get<V>(d: Dict<V>, key: string): Option<V> {
    if d == [] then None else if d[0].0 == key then Some(d[0].1) else Get(d[1..], key)
  }

  /** Assigning a key: in place when it is there, at the end when it is not. */
  function Put<V>(d: Dict<V>, key: string, value: V): Dict<V> {
    if d == [] then [(key, value)]
    else if d[0].0 == key then [(key, value)] + d[1..]
    else [d[0]] + Put(d[1..], key, value)
  }

  function Total(d: Dict<real>): real {
    if d == [] then 0.0 else d[0].1 + Total(d[1..])
  }

  function OrZero(value: Option<real>): real { if value.Some? then value.value else 0.0 }

  lemma {:induction false} GetPut<V>(d: Dict<V>, key: string, value: V, other: string)
    ensures Get(Put(d, key, value), other) == if other == key then Some(value) else Get(d, other)
  {
    if d != [] && d[0].0 != key {
      GetPut(d[1..], key, value, other);
    }
  }

  /** An assignment changes the total by the new value less the one it overwrites. */
  lemma {:induction false} TotalPut(d: Dict<real>, key: string, value: real)
    ensures Total(Put(d, key, value)) == Total(d) - OrZero(Get(d, key)) + value
  {
    if d == [] {
      assert [(key, value)][1..] == [];
    } else if d[0].0 != key {
      TotalPut(d[1..], key, value);
    }
  }

  // ---- Composite keys ----

  /** str.partition: what stands before and after the first '#'. */
  function Partition(key: string): (string, string) {
    if key == "" then ("", "")
    else if key[0] == '#' then ("", key[1..])
    else
      var rest := Partition(key[1..]);
      ([key[0]] + rest.0, rest.1)
  }

  function CompositeKey(model: string, reason: string): string { model + "#" + reason }

  lemma {:induction false} PartitionPlain(model: string, rest: string)
    requires '#' !in model
    ensures Partition(model + "#" + rest) == (model, rest)
  {
    if model == "" {
      assert "" + "#" + rest == "#" + rest;
      assert ("#" + rest)[1..] == rest;
    } else {
      assert (model + "#" + rest)[1..] == model[1..] + "#" + rest;
      PartitionPlain(model[1..], rest);
      assert [model[0]] + model[1..] == model;
    }
  }

  /** A key splits at its first '#', and is all model when it has none. */
  lemma {:induction false} PartitionIsExact(key: string)
    ensures '#' !in Partition(key).0
    ensures key == if '#' in key then Partition(key).0 + "#" + Partition(key).1 else Partition(key).0
    ensures '#' !in key ==> Partition(key).1 == ""
  {
    if key != "" {
      assert key == [key[0]] + key[1..];
      if key[0] != '#' {
        PartitionIsExact(key[1..]);
      }
    }
  }

  /** Reading a written key back gives the model and the reason exactly when the model id has
      no '#' in it. */
  lemma CompositeKeyReadsBackIff(model: string, reason: string)
    ensures Partition(CompositeKey(model, reason)) == (model, reason) <==> '#' !in model
  {
    if '#' !in model {
      PartitionPlain(model, reason);
    } else {
      PartitionIsExact(CompositeKey(model, reason));
    }
  }

  // ---- Tokens ----

  datatype Tokens = Tokens(input: int, output: int)

  /** A stored entry; a missing count reads as 0. */
  datatype Entry = Entry(inputTokens: Option<int>, outputTokens: Option<int>)

  const ZERO := Tokens(0, 0)

  function Count(stored: Option<int>): int { if stored.Some? then stored.value else 0 }

  function TokensOf(e: Entry): Tokens { Tokens(Count(e.inputTokens), Count(e.outputTokens)) }

  function Add(a: Tokens, b: Tokens): Tokens { Tokens(a.input + b.input, a.output + b.output) }

  function OrNoTokens(t: Option<Tokens>): Tokens { if t.Some? then t.value else ZERO }

  function ModelOf(e: (string, Entry)): string { Partition(e.0).0 }

  /** The tokens of all the entries of one model. */
  function ModelTotal(entries: Dict<Entry>, model: string): Tokens {
    if entries == [] then ZERO
    else
      var before, last := ModelTotal(entries[..|entries| - 1], model), entries[|entries| - 1];
      if ModelOf(last) == model then Add(before, TokensOf(last.1)) else before
  }

  function AddEntry(totals: Dict<Tokens>, e: (string, Entry)): Dict<Tokens> {
    Put(totals, ModelOf(e), Add(OrNoTokens(Get(totals, ModelOf(e))), TokensOf(e.1)))
  }

  function Summed(entries: Dict<Entry>): Dict<Tokens> {
    if entries == [] then [] else AddEntry(Summed(entries[..|entries| - 1]), entries[|entries| - 1])
  }

  function SetDefault<V>(d: Dict<V>, key: string, value: V): Dict<V> {
    if Get(d, key).Some? then d else d + [(key, value)]
  }

  lemma {:induction false} SetDefaultThenPut<V>(d: Dict<V>, key: string, default: V, value: V)
    ensures Put(SetDefault(d, key, default), key, value) == Put(d, key, value)
    ensures Get(SetDefault(d, key, default), key) == if Get(d, key).Some? then Get(d, key) else Some(default)
  {
    if Get(d, key).None? {
      if d == [] {
        assert [(key, default)][1..] == [];
      } else {
        SetDefaultThenPut(d[1..], key, default, value);
        assert (d + [(key, default)])[1..] == d[1..] + [(key, default)];
      }
    }
  }

  method SumTokenUsageByModel(entries: Dict<Entry>) returns (totals: Dict<Tokens>)
    ensures totals == Summed(entries)
  {
    totals := [];
    for i := 0 to |entries|
      invariant totals == Summed(entries[..i])
    {
      var model, tokens := ModelOf(entries[i]), TokensOf(entries[i].1);
      SetDefaultThenPut(totals, model, ZERO, Add(OrNoTokens(Get(totals, model)), tokens));
      assert entries[..i + 1][..i] == entries[..i];
      totals := SetDefault(totals, model, ZERO);
      totals := Put(totals, model, Add(Get(totals, model).value, tokens));
    }
    assert entries[..|entries|] == entries;
  }

  predicate UsesModel(entries: Dict<Entry>, model: string) {
    exists i :: 0 <= i < |entries| && ModelOf(entries[i]) == model
  }

  lemma UsesModelLast(entries: Dict<Entry>, model: string)
    requires entries != []
    ensures UsesModel(entries, model) <==>
      UsesModel(entries[..|entries| - 1], model) || ModelOf(entries[|entries| - 1]) == model
  {
    if UsesModel(entries[..|entries| - 1], model) {
      var i :| 0 <= i < |entries| - 1 && ModelOf(entries[..|entries| - 1][i]) == model;
      assert ModelOf(entries[i]) == model;
    }
    if UsesModel(entries, model) && ModelOf(entries[|entries| - 1]) != model {
      var i :| 0 <= i < |entries| && ModelOf(entries[i]) == model;
      assert ModelOf(entries[..|entries| - 1][i]) == model;
    }
  }

  lemma AddEntryGet(totals: Dict<Tokens>, e: (string, Entry), model: string)
    ensures Get(AddEntry(totals, e), model) ==
      if ModelOf(e) == model then Some(Add(OrNoTokens(Get(totals, model)), TokensOf(e.1))) else Get(totals, model)
  {
    GetPut(totals, ModelOf(e), Add(OrNoTokens(Get(totals, ModelOf(e))), TokensOf(e.1)), model);
  }

  ghost predicate BucketIsExact(totals: Dict<Tokens>, entries: Dict<Entry>, model: string) {
    && OrNoTokens(Get(totals, model)) == ModelTotal(entries, model)
    && (Get(totals, model).Some? <==> UsesModel(entries, model))
  }

  lemma AddEntryIsExact(totals: Dict<Tokens>, entries: Dict<Entry>, model: string)
    requires entries != [] && BucketIsExact(totals, entries[..|entries| - 1], model)
    ensures BucketIsExact(AddEntry(totals, entries[|entries| - 1]), entries, model)
  {
    AddEntryGet(totals, entries[|entries| - 1], model);
    UsesModelLast(entries, model);
  }

  /** Each model's bucket holds the sum of its entries' tokens, whatever their reasons. */
  lemma {:induction false} SummedIsExact(entries: Dict<Entry>, model: string)
    ensures BucketIsExact(Summed(entries), entries, model)
  {
    if entries != [] {
      SummedIsExact(entries[..|entries| - 1], model);
      AddEntryIsExact(Summed(entries[..|entries| - 1]), entries, model);
    }
  }

  // ---- Prices ----

  /** A row of the price table. Looking up a token price in a row that has none raises; the
      rows of the extraction services are such rows. An empty row reads as no row. */
  datatype PriceRow = PerToken(inputPer1m: real, outputPer1m: real) | NoTokenPrice | EmptyRow

  type Prices = map<string, PriceRow>

  datatype LlmCost = Unpriced | Raises | Cost(value: real)

  function ComputeLlmCost(prices: Prices, model: string, t: Tokens): LlmCost {
    if model !in prices || prices[model].EmptyRow? then Unpriced
    else if prices[model].NoTokenPrice? then Raises
    else Cost((t.input as real * prices[model].inputPer1m + t.output as real * prices[model].outputPer1m) / 1000000.0)
  }

  function Amount(c: LlmCost): real { if c.Cost? then c.value else 0.0 }

  function CostIn(prices: Prices, model: string, t: Tokens): real { Amount(ComputeLlmCost(prices, model, t)) }

  /** Cost is linear in the tokens. */
  lemma CostIsLinear(prices: Prices, model: string, a: Tokens, b: Tokens)
    ensures CostIn(prices, model, Add(a, b)) == CostIn(prices, model, a) + CostIn(prices, model, b)
    ensures CostIn(prices, model, ZERO) == 0.0
  {
    if ComputeLlmCost(prices, model, a).Cost? {
      Distribute(a.input as real, b.input as real, prices[model].inputPer1m);
      Distribute(a.output as real, b.output as real, prices[model].outputPer1m);
    }
  }

  type Measure = (string, Tokens) -> real

  /** A measure of a model's tokens that adds up. */
  ghost predicate Additive(f: Measure) {
    forall model, a, b {:trigger f(model, Add(a, b))} :: f(model, Add(a, b)) == f(model, a) + f(model, b)
  }

  function OverEntries(f: Measure, entries: Dict<Entry>): real {
    if entries == [] then 0.0
    else
      var last := entries[|entries| - 1];
      OverEntries(f, entries[..|entries| - 1]) + f(ModelOf(last), TokensOf(last.1))
  }

  function OverTotals(f: Measure, totals: Dict<Tokens>): real {
    if totals == [] then 0.0 else f(totals[0].0, totals[0].1) + OverTotals(f, totals[1..])
  }

  function Pricing(prices: Prices): Measure { (model, t) => CostIn(prices, model, t) }

  lemma PricingIsAdditive(prices: Prices)
    ensures Additive(Pricing(prices))
  {
    forall model, a, b ensures Pricing(prices)(model, Add(a, b)) == Pricing(prices)(model, a) + Pricing(prices)(model, b) {
      CostIsLinear(prices, model, a, b);
    }
  }

  lemma NothingMeasuresZero(f: Measure, model: string)
    requires Additive(f)
    ensures f(model, ZERO) == 0.0
  {
    assert Add(ZERO, ZERO) == ZERO;
    assert f(model, Add(ZERO, ZERO)) == f(model, ZERO) + f(model, ZERO);
  }

  // ---- By model ----

  /** The comprehension over the per-model totals: the priced models, or nothing if one raises. */
  function ModelCosts(prices: Prices, totals: Dict<Tokens>): Option<Dict<real>> {
    if totals == [] then Some([])
    else
      var c, rest := ComputeLlmCost(prices, totals[0].0, totals[0].1), ModelCosts(prices, totals[1..]);
      if c.Raises? || rest.None? then None
      else if c.Unpriced? then rest
      else Some([(totals[0].0, c.value)] + rest.value)
  }

  lemma {:induction false} OverTotalsPut(f: Measure, totals: Dict<Tokens>, model: string, t: Tokens)
    requires Additive(f)
    ensures OverTotals(f, Put(totals, model, t))
         == OverTotals(f, totals) - f(model, OrNoTokens(Get(totals, model))) + f(model, t)
  {
    if totals == [] {
      NothingMeasuresZero(f, model);
      assert [(model, t)][1..] == [];
    } else if totals[0].0 != model {
      OverTotalsPut(f, totals[1..], model, t);
    }
  }

  lemma AddEntryMeasure(f: Measure, totals: Dict<Tokens>, e: (string, Entry))
    requires Additive(f)
    ensures OverTotals(f, AddEntry(totals, e)) == OverTotals(f, totals) + f(ModelOf(e), TokensOf(e.1))
  {
    var model, held := ModelOf(e), OrNoTokens(Get(totals, ModelOf(e)));
    OverTotalsPut(f, totals, model, Add(held, TokensOf(e.1)));
    assert f(model, Add(held, TokensOf(e.1))) == f(model, held) + f(model, TokensOf(e.1));
  }

  lemma OneMoreConserves(f: Measure, totals: Dict<Tokens>, entries: Dict<Entry>)
    requires Additive(f) && entries != [] && OverTotals(f, totals) == OverEntries(f, entries[..|entries| - 1])
    ensures OverTotals(f, AddEntry(totals, entries[|entries| - 1])) == OverEntries(f, entries)
  {
    AddEntryMeasure(f, totals, entries[|entries| - 1]);
  }

  /** Collapsing reasons into models changes nothing that adds up, neither tokens nor cost. */
  lemma {:induction false} SummingConserves(f: Measure, entries: Dict<Entry>)
    requires Additive(f)
    ensures OverTotals(f, Summed(entries)) == OverEntries(f, entries)
  {
    if entries != [] {
      SummingConserves(f, entries[..|entries| - 1]);
      OneMoreConserves(f, Summed(entries[..|entries| - 1]), entries);
    }
  }

  lemma {:induction false} ModelCostsExact(prices: Prices, totals: Dict<Tokens>, key: string)
    requires ModelCosts(prices, totals).Some? && DistinctKeys(totals)
    ensures Total(ModelCosts(prices, totals).value) == OverTotals(Pricing(prices), totals)
    ensures OrZero(Get(ModelCosts(prices, totals).value, key)) == CostIn(prices, key, OrNoTokens(Get(totals, key)))
  {
    CostIsLinear(prices, key, ZERO, ZERO);
    if totals != [] {
      ModelCostsExact(prices, totals[1..], key);
      if totals[0].0 == key {
        GetAbsent(totals[1..], key);
      }
    }
  }

  ghost predicate DistinctKeys<V>(d: Dict<V>) {
    forall i, j :: 0 <= i < j < |d| ==> d[i].0 != d[j].0
  }

  lemma {:induction false} GetAbsent<V>(d: Dict<V>, key: string)
    ensures Get(d, key).None? <==> forall i :: 0 <= i < |d| ==> d[i].0 != key
  {
    if d != [] {
      GetAbsent(d[1..], key);
      assert forall i :: 1 <= i < |d| ==> d[i] == d[1..][i - 1];
    }
  }

  lemma {:induction false} PutKeys<V>(d: Dict<V>, key: string, value: V)
    requires DistinctKeys(d)
    ensures DistinctKeys(Put(d, key, value))
  {
    if d != [] && d[0].0 != key {
      PutKeys(d[1..], key, value);
      GetAbsent(d[1..], d[0].0);
      GetPut(d[1..], key, value, d[0].0);
      GetAbsent(Put(d[1..], key, value), d[0].0);
    }
  }

  lemma {:induction false} SummedKeys(entries: Dict<Entry>)
    ensures DistinctKeys(Summed(entries))
  {
    if entries != [] {
      var init, last := entries[..|entries| - 1], entries[|entries| - 1];
      SummedKeys(init);
      PutKeys(Summed(init), ModelOf(last), Add(OrNoTokens(Get(Summed(init), ModelOf(last))), TokensOf(last.1)));
    }
  }

  lemma {:induction false} ModelCostsRaise(prices: Prices, totals: Dict<Tokens>)
    ensures ModelCosts(prices, totals).None? <==>
      exists i :: 0 <= i < |totals| && ComputeLlmCost(prices, totals[i].0, totals[i].1).Raises?
  {
    if totals != [] {
      ModelCostsRaise(prices, totals[1..]);
      assert forall i :: 1 <= i < |totals| ==> totals[i] == totals[1..][i - 1];
    }
  }

  predicate RaisesFor(prices: Prices, model: string) { model in prices && prices[model].NoTokenPrice? }

  predicate HasKey<V>(d: Dict<V>, key: string) { exists i :: 0 <= i < |d| && d[i].0 == key }

  lemma GetIffKey<V>(d: Dict<V>, key: string)
    ensures Get(d, key).Some? <==> HasKey(d, key)
  {
    GetAbsent(d, key);
  }

  /** A model of the totals is a model of some entry, and the other way round. */
  lemma SummedModels(entries: Dict<Entry>, model: string)
    ensures UsesModel(entries, model) <==> HasKey(Summed(entries), model)
  {
    SummedIsExact(entries, model);
    GetIffKey(Summed(entries), model);
  }

  lemma SumRaisesIff(prices: Prices, entries: Dict<Entry>)
    ensures ModelCosts(prices, Summed(entries)).None? <==>
      exists j :: 0 <= j < |entries| && RaisesFor(prices, ModelOf(entries[j]))
  {
    var totals := Summed(entries);
    ModelCostsRaise(prices, totals);
    if i :| 0 <= i < |totals| && ComputeLlmCost(prices, totals[i].0, totals[i].1).Raises? {
      var j := EntryOfTotal(entries, i);
    }
    if j :| 0 <= j < |entries| && RaisesFor(prices, ModelOf(entries[j])) {
      var i := TotalOfEntry(entries, j);
      RaisesForAny(prices, totals[i].0, totals[i].1);
    }
  }

  lemma RaisesForAny(prices: Prices, model: string, t: Tokens)
    ensures ComputeLlmCost(prices, model, t).Raises? <==> RaisesFor(prices, model)
  {
  }

  lemma EntryOfTotal(entries: Dict<Entry>, i: nat) returns (j: nat)
    requires i < |Summed(entries)|
    ensures j < |entries| && ModelOf(entries[j]) == Summed(entries)[i].0
  {
    SummedModels(entries, Summed(entries)[i].0);
    j :| 0 <= j < |entries| && ModelOf(entries[j]) == Summed(entries)[i].0;
  }

  lemma TotalOfEntry(entries: Dict<Entry>, j: nat) returns (i: nat)
    requires j < |entries|
    ensures i < |Summed(entries)| && Summed(entries)[i].0 == ModelOf(entries[j])
  {
    SummedModels(entries, ModelOf(entries[j]));
    i :| 0 <= i < |Summed(entries)| && Summed(entries)[i].0 == ModelOf(entries[j]);
  }

  // ---- By reason ----

  const OCR_MAPPING_REASON := "ocrMapping"
  const SHARED_REASON := "shared"
  const PRIMARY_REASON := "primary"

  function BucketOf(e: (string, Entry)): string {
    if Partition(e.0).1 == OCR_MAPPING_REASON then OCR_MAPPING_REASON else SHARED_REASON
  }

  function CostOfEntry(prices: Prices, e: (string, Entry)): LlmCost {
    ComputeLlmCost(prices, ModelOf(e), TokensOf(e.1))
  }

  function AddCost(buckets: Dict<real>, bucket: string, c: LlmCost): Dict<real> {
    if c.Cost? then Put(buckets, bucket, OrZero(Get(buckets, bucket)) + c.value) else buckets
  }

  function ReasonBuckets(prices: Prices, entries: Dict<Entry>): Dict<real> {
    if entries == [] then []
    else
      var last := entries[|entries| - 1];
      AddCost(ReasonBuckets(prices, entries[..|entries| - 1]), BucketOf(last), CostOfEntry(prices, last))
  }

  lemma AddCostExact(buckets: Dict<real>, bucket: string, c: LlmCost, other: string)
    ensures Total(AddCost(buckets, bucket, c)) == Total(buckets) + Amount(c)
    ensures OrZero(Get(AddCost(buckets, bucket, c), other)) == OrZero(Get(buckets, other)) + if bucket == other then Amount(c) else 0.0
    ensures Get(buckets, other).None? && bucket != other ==> Get(AddCost(buckets, bucket, c), other).None?
  {
    if c.Cost? {
      TotalPut(buckets, bucket, OrZero(Get(buckets, bucket)) + c.value);
      GetPut(buckets, bucket, OrZero(Get(buckets, bucket)) + c.value, other);
    }
  }

  /** The entries that go to a bucket. */
  function InBucket(entries: Dict<Entry>, bucket: string): Dict<Entry> {
    if entries == [] then []
    else
      var before, last := InBucket(entries[..|entries| - 1], bucket), entries[|entries| - 1];
      if BucketOf(last) == bucket then before + [last] else before
  }

  lemma OverOneMore(f: Measure, entries: Dict<Entry>, e: (string, Entry))
    ensures OverEntries(f, entries + [e]) == OverEntries(f, entries) + f(ModelOf(e), TokensOf(e.1))
  {
    assert (entries + [e])[..|entries|] == entries;
  }

  /** Each bucket holds what its own entries cost, and the buckets together what all cost. */
  lemma {:induction false} BucketsAreExact(prices: Prices, entries: Dict<Entry>, bucket: string)
    ensures Total(ReasonBuckets(prices, entries)) == OverEntries(Pricing(prices), entries)
    ensures OrZero(Get(ReasonBuckets(prices, entries), bucket)) == OverEntries(Pricing(prices), InBucket(entries, bucket))
    ensures Get(ReasonBuckets(prices, entries), PRIMARY_REASON).None?
  {
    if entries != [] {
      var init, last := entries[..|entries| - 1], entries[|entries| - 1];
      BucketsAreExact(prices, init, bucket);
      var c := CostOfEntry(prices, last);
      AddCostExact(ReasonBuckets(prices, init), BucketOf(last), c, bucket);
      AddCostExact(ReasonBuckets(prices, init), BucketOf(last), c, PRIMARY_REASON);
      assert Pricing(prices)(ModelOf(last), TokensOf(last.1)) == Amount(c);
      OverOneMore(Pricing(prices), InBucket(init, bucket), last);
    }
  }

  // ---- The response ----

  const TEXTRACT := "textract"
  const BDA := "bda"
  const LAYOUT_OCR := "analyze_document_layout"
  const LAYOUT_OCR_PAGES := 1

  /** Per-page rates of the textract and bda rows. */
  datatype Rates = Rates(analyzeId: real, layout: real, bdaStandard: real, bdaCustom: real)

  datatype Job = Job(primaryMethod: string, pagesSentToBda: Option<int>, customBlueprint: bool)

  datatype Costs = Costs(byModel: Dict<real>, byReason: Dict<real>, pages: int)

  function PagesOf(job: Job): int {
    if job.primaryMethod == BDA && job.pagesSentToBda.Some? && job.pagesSentToBda.value != 0
    then job.pagesSentToBda.value else 1
  }

  function ComputeTextractCost(pages: int, perPage: real): real { pages as real * perPage }

  function ComputeBdaCost(pages: int, custom: bool, rates: Rates): real {
    pages as real * if custom then rates.bdaCustom else rates.bdaStandard
  }

  /** What the primary engine charges, under its own name; nothing for another engine. */
  function PrimaryFee(job: Job, rates: Rates): Option<real> {
    if job.primaryMethod == TEXTRACT then Some(ComputeTextractCost(1, rates.analyzeId))
    else if job.primaryMethod == BDA then Some(ComputeBdaCost(PagesOf(job), job.customBlueprint, rates))
    else None
  }

  function LayoutFee(rates: Rates): real { ComputeTextractCost(LAYOUT_OCR_PAGES, rates.layout) }

  function WithPrimary(d: Dict<real>, key: string, fee: Option<real>): Dict<real> {
    if fee.Some? then Put(d, key, fee.value) else d
  }

  function ByModel(priced: Dict<real>, job: Job, rates: Rates): Dict<real> {
    Put(WithPrimary(priced, job.primaryMethod, PrimaryFee(job, rates)), LAYOUT_OCR, LayoutFee(rates))
  }

  function ByReason(buckets: Dict<real>, job: Job, rates: Rates): Dict<real> {
    WithPrimary(Put(buckets, OCR_MAPPING_REASON, OrZero(Get(buckets, OCR_MAPPING_REASON)) + LayoutFee(rates)),
                PRIMARY_REASON, PrimaryFee(job, rates))
  }

  method CostByModel(priced: Dict<real>, rates: Rates, job: Job) returns (cost: Dict<real>, pages: int)
    ensures cost == ByModel(priced, job, rates) && pages == PagesOf(job)
  {
    cost, pages := priced, 1;
    if job.primaryMethod == TEXTRACT {
      cost := Put(cost, TEXTRACT, ComputeTextractCost(pages, rates.analyzeId));
    } else if job.primaryMethod == BDA {
      pages := PagesOf(job);
      cost := Put(cost, BDA, ComputeBdaCost(pages, job.customBlueprint, rates));
    }
    cost := Put(cost, LAYOUT_OCR, ComputeTextractCost(LAYOUT_OCR_PAGES, rates.layout));
  }

  method CostByReason(prices: Prices, rates: Rates, job: Job, entries: Dict<Entry>, pages: int)
    returns (costByReason: Dict<real>)
    requires pages == PagesOf(job)
    ensures costByReason == ByReason(ReasonBuckets(prices, entries), job, rates)
  {
    costByReason := [];
    for i := 0 to |entries|
      invariant costByReason == ReasonBuckets(prices, entries[..i])
    {
      assert entries[..i + 1][..i] == entries[..i];
      var c := CostOfEntry(prices, entries[i]);
      if c.Cost? {
        var bucket := BucketOf(entries[i]);
        costByReason := Put(costByReason, bucket, OrZero(Get(costByReason, bucket)) + c.value);
      }
    }
    assert entries[..|entries|] == entries;
    costByReason := AddFees(costByReason, rates, job, pages);
  }

  method AddFees(buckets: Dict<real>, rates: Rates, job: Job, pages: int) returns (costByReason: Dict<real>)
    requires pages == PagesOf(job)
    ensures costByReason == ByReason(buckets, job, rates)
  {
    costByReason := Put(buckets, OCR_MAPPING_REASON, OrZero(Get(buckets, OCR_MAPPING_REASON)) + LayoutFee(rates));
    if job.primaryMethod == TEXTRACT {
      costByReason := Put(costByReason, PRIMARY_REASON, ComputeTextractCost(pages, rates.analyzeId));
    } else if job.primaryMethod == BDA {
      costByReason := Put(costByReason, PRIMARY_REASON, ComputeBdaCost(pages, job.customBlueprint, rates));
    }
  }

  function OrNoFee(fee: Option<real>): real { if fee.Some? then fee.value else 0.0 }

  /** What the fees overwrite in the breakdown by model: the token costs of models that go by
      the name of a fee. */
  function Overwritten(prices: Prices, job: Job, rates: Rates, entries: Dict<Entry>): real {
    (if PrimaryFee(job, rates).Some? then CostIn(prices, job.primaryMethod, ModelTotal(entries, job.primaryMethod)) else 0.0)
    + CostIn(prices, LAYOUT_OCR, ModelTotal(entries, LAYOUT_OCR))
  }

  lemma PricedModel(prices: Prices, entries: Dict<Entry>, model: string)
    requires ModelCosts(prices, Summed(entries)).Some?
    ensures OrZero(Get(ModelCosts(prices, Summed(entries)).value, model)) == CostIn(prices, model, ModelTotal(entries, model))
    ensures Total(ModelCosts(prices, Summed(entries)).value) == OverEntries(Pricing(prices), entries)
  {
    SummedKeys(entries);
    ModelCostsExact(prices, Summed(entries), model);
    SummedIsExact(entries, model);
    PricingIsAdditive(prices);
    SummingConserves(Pricing(prices), entries);
  }

  lemma ByModelTotal(priced: Dict<real>, job: Job, rates: Rates)
    ensures Total(ByModel(priced, job, rates)) == Total(priced) + OrNoFee(PrimaryFee(job, rates)) + LayoutFee(rates)
      - (if PrimaryFee(job, rates).Some? then OrZero(Get(priced, job.primaryMethod)) else 0.0) - OrZero(Get(priced, LAYOUT_OCR))
  {
    var withPrimary := WithPrimary(priced, job.primaryMethod, PrimaryFee(job, rates));
    if PrimaryFee(job, rates).Some? {
      TotalPut(priced, job.primaryMethod, PrimaryFee(job, rates).value);
      GetPut(priced, job.primaryMethod, PrimaryFee(job, rates).value, LAYOUT_OCR);
    }
    assert LAYOUT_OCR[0] == 'a' && TEXTRACT[0] == 't' && BDA[0] == 'b';
    TotalPut(withPrimary, LAYOUT_OCR, LayoutFee(rates));
  }

  lemma ByReasonTotal(buckets: Dict<real>, job: Job, rates: Rates)
    requires Get(buckets, PRIMARY_REASON).None?
    ensures Total(ByReason(buckets, job, rates)) == Total(buckets) + OrNoFee(PrimaryFee(job, rates)) + LayoutFee(rates)
  {
    var value := OrZero(Get(buckets, OCR_MAPPING_REASON)) + LayoutFee(rates);
    TotalPut(buckets, OCR_MAPPING_REASON, value);
    GetPut(buckets, OCR_MAPPING_REASON, value, PRIMARY_REASON);
    if PrimaryFee(job, rates).Some? {
      TotalPut(Put(buckets, OCR_MAPPING_REASON, value), PRIMARY_REASON, PrimaryFee(job, rates).value);
    }
  }

  /** The breakdown by reason exceeds the one by model by exactly what the fees overwrite. */
  lemma TotalsDifferByTheOverwritten(prices: Prices, rates: Rates, job: Job, entries: Dict<Entry>)
    requires ModelCosts(prices, Summed(entries)).Some?
    ensures Total(ByReason(ReasonBuckets(prices, entries), job, rates))
         == Total(ByModel(ModelCosts(prices, Summed(entries)).value, job, rates)) + Overwritten(prices, job, rates, entries)
  {
    PricedModel(prices, entries, job.primaryMethod);
    PricedModel(prices, entries, LAYOUT_OCR);
    ByModelTotal(ModelCosts(prices, Summed(entries)).value, job, rates);
    BucketsAreExact(prices, entries, PRIMARY_REASON);
    ByReasonTotal(ReasonBuckets(prices, entries), job, rates);
  }

  predicate HasTokenPrice(prices: Prices, model: string) { model in prices && prices[model].PerToken? }

  /** With no token price under a fee's name, as in the price table the program ships, the
      two breakdowns always add up to the same total. */
  lemma FeeNamesUnpricedAgree(prices: Prices, rates: Rates, job: Job, entries: Dict<Entry>)
    requires ModelCosts(prices, Summed(entries)).Some?
    requires !HasTokenPrice(prices, TEXTRACT) && !HasTokenPrice(prices, BDA) && !HasTokenPrice(prices, LAYOUT_OCR)
    ensures Total(ByReason(ReasonBuckets(prices, entries), job, rates))
         == Total(ByModel(ModelCosts(prices, Summed(entries)).value, job, rates))
  {
    TotalsDifferByTheOverwritten(prices, rates, job, entries);
    UnpricedIsFree(prices, job.primaryMethod, ModelTotal(entries, job.primaryMethod));
    UnpricedIsFree(prices, LAYOUT_OCR, ModelTotal(entries, LAYOUT_OCR));
  }

  lemma UnpricedIsFree(prices: Prices, model: string, t: Tokens)
    ensures !HasTokenPrice(prices, model) ==> CostIn(prices, model, t) == 0.0
  {
  }

  predicate NoTokensUnderFeeNames(prices: Prices, job: Job, rates: Rates, entries: Dict<Entry>) {
    && (PrimaryFee(job, rates).Some? && HasTokenPrice(prices, job.primaryMethod) ==> ModelTotal(entries, job.primaryMethod) == ZERO)
    && (HasTokenPrice(prices, LAYOUT_OCR) ==> ModelTotal(entries, LAYOUT_OCR) == ZERO)
  }

  /** With positive token prices the totals agree exactly when no tokens were recorded for a
      model whose name a fee takes. */
  lemma TotalsAgreeIff(prices: Prices, rates: Rates, job: Job, entries: Dict<Entry>)
    requires ModelCosts(prices, Summed(entries)).Some?
    requires forall model :: HasTokenPrice(prices, model) ==> prices[model].inputPer1m > 0.0 && prices[model].outputPer1m > 0.0
    requires forall i :: 0 <= i < |entries| ==> TokensOf(entries[i].1).input >= 0 && TokensOf(entries[i].1).output >= 0
    ensures Total(ByReason(ReasonBuckets(prices, entries), job, rates))
         == Total(ByModel(ModelCosts(prices, Summed(entries)).value, job, rates))
      <==> NoTokensUnderFeeNames(prices, job, rates, entries)
  {
    TotalsDifferByTheOverwritten(prices, rates, job, entries);
    FreeIffNoTokens(prices, entries, job.primaryMethod);
    FreeIffNoTokens(prices, entries, LAYOUT_OCR);
  }

  lemma {:induction false} TotalsAreNonNegative(entries: Dict<Entry>, model: string)
    requires forall i :: 0 <= i < |entries| ==> TokensOf(entries[i].1).input >= 0 && TokensOf(entries[i].1).output >= 0
    ensures ModelTotal(entries, model).input >= 0 && ModelTotal(entries, model).output >= 0
  {
    if entries != [] {
      TotalsAreNonNegative(entries[..|entries| - 1], model);
    }
  }

  lemma ProductIsZeroIff(n: int, p: real)
    requires n >= 0 && p > 0.0
    ensures n as real * p >= 0.0 && (n as real * p == 0.0 <==> n == 0)
  {
  }

  lemma ScaledSum(a: real, b: real)
    requires a >= 0.0 && b >= 0.0
    ensures (a + b) / 1000000.0 >= 0.0 && ((a + b) / 1000000.0 == 0.0 <==> a == 0.0 && b == 0.0)
  {
  }

  lemma PricedIsFreeIff(t: Tokens, row: PriceRow)
    requires t.input >= 0 && t.output >= 0 && row.PerToken? && row.inputPer1m > 0.0 && row.outputPer1m > 0.0
    ensures var c := (t.input as real * row.inputPer1m + t.output as real * row.outputPer1m) / 1000000.0;
      c >= 0.0 && (c == 0.0 <==> t == ZERO)
  {
    ProductIsZeroIff(t.input, row.inputPer1m);
    ProductIsZeroIff(t.output, row.outputPer1m);
    ScaledSum(t.input as real * row.inputPer1m, t.output as real * row.outputPer1m);
  }

  lemma FreeIff(prices: Prices, model: string, t: Tokens)
    requires HasTokenPrice(prices, model) ==> prices[model].inputPer1m > 0.0 && prices[model].outputPer1m > 0.0
    requires t.input >= 0 && t.output >= 0
    ensures CostIn(prices, model, t) >= 0.0
    ensures CostIn(prices, model, t) == 0.0 <==> (HasTokenPrice(prices, model) ==> t == ZERO)
  {
    if HasTokenPrice(prices, model) {
      PricedIsFreeIff(t, prices[model]);
    } else {
      UnpricedIsFree(prices, model, t);
    }
  }

  lemma FreeIffNoTokens(prices: Prices, entries: Dict<Entry>, model: string)
    requires forall m :: HasTokenPrice(prices, m) ==> prices[m].inputPer1m > 0.0 && prices[m].outputPer1m > 0.0
    requires forall i :: 0 <= i < |entries| ==> TokensOf(entries[i].1).input >= 0 && TokensOf(entries[i].1).output >= 0
    ensures CostIn(prices, model, ModelTotal(entries, model)) >= 0.0
    ensures CostIn(prices, model, ModelTotal(entries, model)) == 0.0
      <==> (HasTokenPrice(prices, model) ==> ModelTotal(entries, model) == ZERO)
  {
    TotalsAreNonNegative(entries, model);
    FreeIff(prices, model, ModelTotal(entries, model));
  }
}
