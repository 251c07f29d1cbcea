/** The amounts of both breakdowns, from the recorded entries, the prices and the rates alone. */
module CompareAmounts {
  import opened Common
  import opened CompareCost

  function Stored(count: Option<int>): int { if count.Some? then count.value else 0 }

  function Inputs(entries: Dict<Entry>): int {
    if entries == [] then 0
    else Inputs(entries[..|entries| - 1]) + Stored(entries[|entries| - 1].1.inputTokens)
  }

  function Outputs(entries: Dict<Entry>): int {
    if entries == [] then 0
    else Outputs(entries[..|entries| - 1]) + Stored(entries[|entries| - 1].1.outputTokens)
  }

  function OfModel(model: string): ((string, Entry)) -> bool { (e: (string, Entry)) => Partition(e.0).0 == model }

  function ForOcrMapping(yes: bool): ((string, Entry)) -> bool {
    (e: (string, Entry)) => (Partition(e.0).1 == "ocrMapping") == yes
  }

  /** A million times what the priced entries cost. */
  function PricedTokens(prices: Prices, entries: Dict<Entry>): real {
    if entries == [] then 0.0
    else
      var last := entries[|entries| - 1];
      PricedTokens(prices, entries[..|entries| - 1]) + PricedEntry(prices, Partition(last.0).0, last.1)
  }

  function PricedEntry(prices: Prices, model: string, e: Entry): real {
    if model in prices && prices[model].PerToken?
    then Stored(e.inputTokens) as real * prices[model].inputPer1m + Stored(e.outputTokens) as real * prices[model].outputPer1m
    else 0.0
  }

  predicate TakenByAFee(job: Job, model: string) {
    || model == "analyze_document_layout"
    || (job.primaryMethod == "textract" && model == "textract")
    || (job.primaryMethod == "bda" && model == "bda")
  }

  /** The amount of a model no fee takes: its summed tokens at its own prices, and nothing for a
      model that is not priced or was not used. */
  ghost predicate ModelAmount(byModel: Dict<real>, prices: Prices, entries: Dict<Entry>, model: string) {
    OwnAmount(Get(byModel, model), prices, Filter(entries, OfModel(model)), model)
  }

  ghost predicate OwnAmount(amount: Option<real>, prices: Prices, own: Dict<Entry>, model: string) {
    if own != [] && model in prices && prices[model].PerToken? then
      && amount.Some?
      && amount.value * 1000000.0
         == Inputs(own) as real * prices[model].inputPer1m + Outputs(own) as real * prices[model].outputPer1m
    else amount == None
  }

  /** The fees, each under its name. */
  ghost predicate FeeAmounts(byModel: Dict<real>, rates: Rates, job: Job) {
    && Get(byModel, "analyze_document_layout") == Some(rates.layout)
    && (job.primaryMethod == "textract" ==> Get(byModel, "textract") == Some(rates.analyzeId))
    && (job.primaryMethod == "bda" ==> Get(byModel, "bda") == Some(BdaFee(job, rates)))
  }

  /** The pages sent, at least one being charged when none is recorded, at the rate of a custom
      blueprint or the standard one. */
  function BdaFee(job: Job, rates: Rates): real {
    var pages := PagesCharged(job.pagesSentToBda);
    if job.customBlueprint then pages as real * rates.bdaCustom else pages as real * rates.bdaStandard
  }

  function PagesCharged(sent: Option<int>): int { if sent.None? || sent == Some(0) then 1 else sent.value }

  /** The three buckets. */
  ghost predicate ReasonAmounts(byReason: Dict<real>, prices: Prices, rates: Rates, job: Job, entries: Dict<Entry>) {
    && Get(byReason, "ocrMapping").Some?
    && (Get(byReason, "ocrMapping").value - rates.layout) * 1000000.0 == PricedTokens(prices, Filter(entries, ForOcrMapping(true)))
    && OrZero(Get(byReason, "shared")) * 1000000.0 == PricedTokens(prices, Filter(entries, ForOcrMapping(false)))
    && Get(byReason, "primary") ==
         (if job.primaryMethod == "textract" then Some(rates.analyzeId)
          else if job.primaryMethod == "bda" then Some(BdaFee(job, rates))
          else None)
  }

  // ---- One model ----

  lemma TotalsSnoc(entries: Dict<Entry>, e: (string, Entry))
    ensures Inputs(entries + [e]) == Inputs(entries) + Stored(e.1.inputTokens)
    ensures Outputs(entries + [e]) == Outputs(entries) + Stored(e.1.outputTokens)
  {
    assert (entries + [e])[..|entries|] == entries;
  }

  lemma {:induction false} ModelTotalMeans(entries: Dict<Entry>, model: string)
    ensures ModelTotal(entries, model).input == Inputs(Filter(entries, OfModel(model)))
    ensures ModelTotal(entries, model).output == Outputs(Filter(entries, OfModel(model)))
  {
    if entries != [] {
      var init, last := entries[..|entries| - 1], entries[|entries| - 1];
      ModelTotalMeans(init, model);
      assert entries == init + [last];
      FilterSnoc(init, last, OfModel(model));
      TotalsSnoc(Filter(init, OfModel(model)), last);
    }
  }

  lemma OwnEntries(entries: Dict<Entry>, model: string)
    ensures Filter(entries, OfModel(model)) != [] <==> UsesModel(entries, model)
  {
    var own := Filter(entries, OfModel(model));
    if own != [] {
      FilterContains(entries, OfModel(model), own[0]);
      var i :| 0 <= i < |entries| && entries[i] == own[0];
      assert ModelOf(entries[i]) == model;
    }
    if UsesModel(entries, model) {
      var i :| 0 <= i < |entries| && ModelOf(entries[i]) == model;
      FilterContains(entries, OfModel(model), entries[i]);
    }
  }

  lemma {:induction false} ModelCostsGet(prices: Prices, totals: Dict<Tokens>, key: string)
    requires ModelCosts(prices, totals).Some? && DistinctKeys(totals)
    ensures Get(ModelCosts(prices, totals).value, key) ==
      if Get(totals, key).Some? && ComputeLlmCost(prices, key, Get(totals, key).value).Cost?
      then Some(ComputeLlmCost(prices, key, Get(totals, key).value).value) else None
  {
    if totals != [] {
      ModelCostsGet(prices, totals[1..], key);
      if totals[0].0 == key {
        GetAbsent(totals[1..], key);
      }
    }
  }

  lemma MillionTimes(x: real)
    ensures x / 1000000.0 * 1000000.0 == x
  {
  }

  lemma PriceMeans(prices: Prices, model: string, t: Tokens)
    ensures ComputeLlmCost(prices, model, t).Cost? <==> model in prices && prices[model].PerToken?
    ensures ComputeLlmCost(prices, model, t).Cost? ==>
      ComputeLlmCost(prices, model, t).value * 1000000.0
        == t.input as real * prices[model].inputPer1m + t.output as real * prices[model].outputPer1m
  {
    if model in prices && prices[model].PerToken? {
      MillionTimes(t.input as real * prices[model].inputPer1m + t.output as real * prices[model].outputPer1m);
    }
  }

  lemma OwnAmountMeans(prices: Prices, model: string, own: Dict<Entry>, t: Tokens)
    requires t.input == Inputs(own) && t.output == Outputs(own)
    ensures var c := ComputeLlmCost(prices, model, t);
      OwnAmount(if own != [] && c.Cost? then Some(c.value) else None, prices, own, model)
  {
    PriceMeans(prices, model, t);
  }

  lemma PricedGet(prices: Prices, entries: Dict<Entry>, model: string)
    requires ModelCosts(prices, Summed(entries)).Some?
    ensures var c := ComputeLlmCost(prices, model, ModelTotal(entries, model));
      Get(ModelCosts(prices, Summed(entries)).value, model)
        == if UsesModel(entries, model) && c.Cost? then Some(c.value) else None
  {
    SummedKeys(entries);
    ModelCostsGet(prices, Summed(entries), model);
    SummedIsExact(entries, model);
  }

  lemma ModelCostsMean(prices: Prices, entries: Dict<Entry>, model: string)
    requires ModelCosts(prices, Summed(entries)).Some?
    ensures ModelAmount(ModelCosts(prices, Summed(entries)).value, prices, entries, model)
  {
    PricedGet(prices, entries, model);
    OwnEntries(entries, model);
    ModelTotalMeans(entries, model);
    OwnAmountMeans(prices, model, Filter(entries, OfModel(model)), ModelTotal(entries, model));
  }

  lemma Once(rate: real)
    ensures 1 as real * rate == rate
  {
  }

  lemma BdaFeeMeans(job: Job, rates: Rates)
    requires job.primaryMethod == BDA
    ensures ComputeBdaCost(PagesOf(job), job.customBlueprint, rates) == BdaFee(job, rates)
  {
    if job.pagesSentToBda.Some? && job.pagesSentToBda.value != 0 {
      assert job.pagesSentToBda != Some(0);
    }
  }

  lemma FeesMean(job: Job, rates: Rates)
    ensures LayoutFee(rates) == rates.layout
    ensures PrimaryFee(job, rates) ==
      if job.primaryMethod == "textract" then Some(rates.analyzeId)
      else if job.primaryMethod == "bda" then Some(BdaFee(job, rates))
      else None
  {
    Once(rates.layout);
    Once(rates.analyzeId);
    if job.primaryMethod == BDA {
      BdaFeeMeans(job, rates);
    }
  }

  lemma NamesDiffer()
    ensures LAYOUT_OCR != TEXTRACT && LAYOUT_OCR != BDA && TEXTRACT != BDA
    ensures PRIMARY_REASON != OCR_MAPPING_REASON && SHARED_REASON != OCR_MAPPING_REASON && PRIMARY_REASON != SHARED_REASON
  {
    assert LAYOUT_OCR[0] == 'a' && TEXTRACT[0] == 't' && BDA[0] == 'b';
    assert PRIMARY_REASON[0] == 'p' && OCR_MAPPING_REASON[0] == 'o' && SHARED_REASON[0] == 's';
  }

  lemma ByModelGet(priced: Dict<real>, job: Job, rates: Rates, key: string)
    ensures Get(ByModel(priced, job, rates), key) ==
      if key == LAYOUT_OCR then Some(LayoutFee(rates))
      else if PrimaryFee(job, rates).Some? && key == job.primaryMethod then PrimaryFee(job, rates)
      else Get(priced, key)
  {
    var withPrimary := WithPrimary(priced, job.primaryMethod, PrimaryFee(job, rates));
    GetPut(withPrimary, LAYOUT_OCR, LayoutFee(rates), key);
    if PrimaryFee(job, rates).Some? {
      GetPut(priced, job.primaryMethod, PrimaryFee(job, rates).value, key);
    }
  }

  /** By model: every model that no fee takes at its own tokens and prices, and the fees. */
  lemma ByModelMeans(prices: Prices, rates: Rates, job: Job, entries: Dict<Entry>, model: string)
    requires ModelCosts(prices, Summed(entries)).Some?
    ensures var byModel := ByModel(ModelCosts(prices, Summed(entries)).value, job, rates);
      FeeAmounts(byModel, rates, job) && (!TakenByAFee(job, model) ==> ModelAmount(byModel, prices, entries, model))
  {
    var priced := ModelCosts(prices, Summed(entries)).value;
    NamesDiffer();
    FeesMean(job, rates);
    ByModelGet(priced, job, rates, LAYOUT_OCR);
    ByModelGet(priced, job, rates, job.primaryMethod);
    ByModelGet(priced, job, rates, model);
    ModelCostsMean(prices, entries, model);
  }

  // ---- The reasons ----

  lemma PricedSnoc(prices: Prices, entries: Dict<Entry>, e: (string, Entry))
    ensures PricedTokens(prices, entries + [e]) == PricedTokens(prices, entries) + PricedEntry(prices, Partition(e.0).0, e.1)
  {
    assert (entries + [e])[..|entries|] == entries;
  }

  lemma OnePriced(prices: Prices, model: string, e: Entry)
    ensures Amount(ComputeLlmCost(prices, model, TokensOf(e))) * 1000000.0 == PricedEntry(prices, model, e)
  {
    PriceMeans(prices, model, TokensOf(e));
  }

  lemma SumTimes(a: real, b: real)
    ensures (a + b) * 1000000.0 == a * 1000000.0 + b * 1000000.0
  {
  }

  lemma OneMorePriced(f: Measure, prices: Prices, entries: Dict<Entry>, e: (string, Entry))
    requires OverEntries(f, entries) * 1000000.0 == PricedTokens(prices, entries)
    requires f(ModelOf(e), TokensOf(e.1)) * 1000000.0 == PricedEntry(prices, ModelOf(e), e.1)
    ensures OverEntries(f, entries + [e]) * 1000000.0 == PricedTokens(prices, entries + [e])
  {
    OverOneMore(f, entries, e);
    PricedSnoc(prices, entries, e);
    SumTimes(OverEntries(f, entries), f(ModelOf(e), TokensOf(e.1)));
  }

  lemma {:induction false} PricedMeans(prices: Prices, entries: Dict<Entry>)
    ensures OverEntries(Pricing(prices), entries) * 1000000.0 == PricedTokens(prices, entries)
  {
    if entries != [] {
      var init, last := entries[..|entries| - 1], entries[|entries| - 1];
      PricedMeans(prices, init);
      OnePriced(prices, ModelOf(last), last.1);
      OneMorePriced(Pricing(prices), prices, init, last);
      assert entries == init + [last];
    }
  }

  lemma {:induction false} BucketMeans(entries: Dict<Entry>)
    ensures InBucket(entries, OCR_MAPPING_REASON) == Filter(entries, ForOcrMapping(true))
    ensures InBucket(entries, SHARED_REASON) == Filter(entries, ForOcrMapping(false))
  {
    if entries != [] {
      var init, last := entries[..|entries| - 1], entries[|entries| - 1];
      BucketMeans(init);
      NamesDiffer();
      assert entries == init + [last];
      FilterSnoc(init, last, ForOcrMapping(true));
      FilterSnoc(init, last, ForOcrMapping(false));
    }
  }

  lemma BucketAmount(prices: Prices, entries: Dict<Entry>, bucket: string)
    ensures OrZero(Get(ReasonBuckets(prices, entries), bucket)) * 1000000.0 == PricedTokens(prices, InBucket(entries, bucket))
    ensures Get(ReasonBuckets(prices, entries), PRIMARY_REASON).None?
  {
    BucketsAreExact(prices, entries, bucket);
    PricedMeans(prices, InBucket(entries, bucket));
  }

  lemma ByReasonGet(buckets: Dict<real>, job: Job, rates: Rates, key: string)
    ensures Get(ByReason(buckets, job, rates), key) ==
      if key == PRIMARY_REASON && PrimaryFee(job, rates).Some? then PrimaryFee(job, rates)
      else if key == OCR_MAPPING_REASON then Some(OrZero(Get(buckets, OCR_MAPPING_REASON)) + LayoutFee(rates))
      else Get(buckets, key)
  {
    var value := OrZero(Get(buckets, OCR_MAPPING_REASON)) + LayoutFee(rates);
    NamesDiffer();
    GetPut(buckets, OCR_MAPPING_REASON, value, key);
    if PrimaryFee(job, rates).Some? {
      GetPut(Put(buckets, OCR_MAPPING_REASON, value), PRIMARY_REASON, PrimaryFee(job, rates).value, key);
    }
  }

  /** By reason: the OCR-mapping entries with the layout fee, all other entries, and the primary
      engine's fee. */
  lemma ByReasonMeans(prices: Prices, rates: Rates, job: Job, entries: Dict<Entry>)
    ensures ReasonAmounts(ByReason(ReasonBuckets(prices, entries), job, rates), prices, rates, job, entries)
  {
    var buckets := ReasonBuckets(prices, entries);
    NamesDiffer();
    FeesMean(job, rates);
    BucketMeans(entries);
    BucketAmount(prices, entries, OCR_MAPPING_REASON);
    BucketAmount(prices, entries, SHARED_REASON);
    ByReasonGet(buckets, job, rates, OCR_MAPPING_REASON);
    ByReasonGet(buckets, job, rates, SHARED_REASON);
    ByReasonGet(buckets, job, rates, PRIMARY_REASON);
  }

  /** The response: nothing when a used model's price row has no token prices, and otherwise both
      breakdowns, from the entries, the prices and the rates. */
  method GetCompareCosts(prices: Prices, rates: Rates, job: Job, entries: Dict<Entry>) returns (r: Option<Costs>)
    ensures r.None? <==>
      exists i :: 0 <= i < |entries| && WithoutTokenPrice(prices, entries[i].0)
    ensures r.Some? ==> FeeAmounts(r.value.byModel, rates, job)
    ensures r.Some? ==> forall model :: !TakenByAFee(job, model) ==> ModelAmount(r.value.byModel, prices, entries, model)
    ensures r.Some? ==> ReasonAmounts(r.value.byReason, prices, rates, job, entries)
    ensures r.Some? ==> r.value.pages == if job.primaryMethod == "bda" then PagesCharged(job.pagesSentToBda) else 1
    ensures r.Some? ==> ModelCosts(prices, Summed(entries)).Some?
    ensures r.Some? ==> r.value.byModel == ByModel(ModelCosts(prices, Summed(entries)).value, job, rates)
    ensures r.Some? ==> r.value.byReason == ByReason(ReasonBuckets(prices, entries), job, rates)
  {
    RaisesIff(prices, entries);
    var tokens := SumTokenUsageByModel(entries);
    var priced := ModelCosts(prices, tokens);
    if priced.None? {
      return None;
    }
    var cost, pages := CostByModel(priced.value, rates, job);
    var costByReason := CostByReason(prices, rates, job, entries, pages);
    CostsMean(prices, rates, job, entries);
    return Some(Costs(cost, costByReason, pages));
  }

  lemma CostsMean(prices: Prices, rates: Rates, job: Job, entries: Dict<Entry>)
    requires ModelCosts(prices, Summed(entries)).Some?
    ensures var byModel := ByModel(ModelCosts(prices, Summed(entries)).value, job, rates);
      FeeAmounts(byModel, rates, job) && forall model :: !TakenByAFee(job, model) ==> ModelAmount(byModel, prices, entries, model)
    ensures ReasonAmounts(ByReason(ReasonBuckets(prices, entries), job, rates), prices, rates, job, entries)
  {
    forall model ensures !TakenByAFee(job, model) ==>
      ModelAmount(ByModel(ModelCosts(prices, Summed(entries)).value, job, rates), prices, entries, model)
    {
      ByModelMeans(prices, rates, job, entries, model);
    }
    ByModelMeans(prices, rates, job, entries, "");
    ByReasonMeans(prices, rates, job, entries);
  }

  lemma RaisesIff(prices: Prices, entries: Dict<Entry>)
    ensures ModelCosts(prices, Summed(entries)).None? <==>
      exists i :: 0 <= i < |entries| && WithoutTokenPrice(prices, entries[i].0)
  {
    SumRaisesIff(prices, entries);
    forall i | 0 <= i < |entries| ensures RaisesFor(prices, ModelOf(entries[i])) <==> WithoutTokenPrice(prices, entries[i].0) {
    }
  }

  /** The model of the key is listed in a row without token prices. */
  predicate WithoutTokenPrice(prices: Prices, key: string) {
    Partition(key).0 in prices && prices[Partition(key).0].NoTokenPrice?
  }
}
