/** Prices, charges and the second meter (model/channel.go, relay/controller/helper.go, audio.go, image.go). */
module Billing {
  import opened Options

  const BILLING_MODE_PER_TOKEN := 1

  /** Prices in yuan per million tokens; one million quota units are one yuan. */
  datatype Price = Price(input: real, output: real)
  datatype PricedChannel
    = PricedChannel(billingMode: int, modelPrices: map<string, Price>, priceIn: real, priceOut: real)

  /** math.Ceil */
  function Ceil(x: real): (n: int)
    ensures x <= n as real < x + 1.0
  {
    -((-x).Floor)
  }

  function GetModelPrice(c: PricedChannel, model: string): Price {
    if model in c.modelPrices then c.modelPrices[model] else Price(c.priceIn, c.priceOut)
  }

  ghost predicate NonNegative(c: PricedChannel) {
    && c.priceIn >= 0.0 && c.priceOut >= 0.0
    && forall m :: m in c.modelPrices ==> c.modelPrices[m].input >= 0.0 && c.modelPrices[m].output >= 0.0
  }

  /** What postConsumeQuota charges; an unknown channel, a flat-rate one or an unpriced model is free. */
  function TextQuota(c: Option<PricedChannel>, model: string, promptTokens: int, completionTokens: int): int {
    if c.None? || c.value.billingMode != BILLING_MODE_PER_TOKEN || promptTokens + completionTokens == 0 then 0
    else
      var p := GetModelPrice(c.value, model);
      if p.input > 0.0 || p.output > 0.0
      then Ceil(promptTokens as real * p.input + completionTokens as real * p.output)
      else 0
  }

  /** What trackUsageForQuota adds to the monthly usage counter, in yuan. */
  function TrackedCost(c: Option<PricedChannel>, model: string, promptTokens: int, completionTokens: int): real {
    if c.None? || c.value.billingMode != BILLING_MODE_PER_TOKEN then 0.0
    else
      var p := GetModelPrice(c.value, model);
      (promptTokens as real / 1000000.0) * p.input + (completionTokens as real / 1000000.0) * p.output
  }

  function AudioQuota(c: Option<PricedChannel>, model: string, tokens: int): int {
    if c.None? || c.value.billingMode != BILLING_MODE_PER_TOKEN then 0
    else Ceil(tokens as real * GetModelPrice(c.value, model).input)
  }

  function Priced(tokens: int, price: real): real {
    tokens as real * price
  }

  function ImageQuota(c: Option<PricedChannel>, model: string, costRatio: real, n: int, replicate: bool): int {
    if c.None? || c.value.billingMode != BILLING_MODE_PER_TOKEN then 0
    else
      var input := GetModelPrice(c.value, model).input;
      if input > 0.0 then
        var perImage := Ceil(Priced(Ceil(1000.0 * costRatio), input));
        if replicate then perImage else perImage * n
      else 0
  }

  // ---------------------------------------------------------------- what they come to

  /**
   A text request is charged its tokens at the price listed for its model, or else at the channel's own prices,
   rounded up - and nothing on a channel that is missing or not metered, without a price, or without tokens.
   */
  lemma TextQuotaIs(c: Option<PricedChannel>, model: string, prompt: int, completion: int)
    ensures c.None? || c.value.billingMode != 1 ==> TextQuota(c, model, prompt, completion) == 0
    ensures c.Some? && c.value.billingMode == 1 ==>
      var p := if model in c.value.modelPrices then c.value.modelPrices[model]
               else Price(c.value.priceIn, c.value.priceOut);
      var cost := prompt as real * p.input + completion as real * p.output;
      if prompt + completion != 0 && (p.input > 0.0 || p.output > 0.0)
      then cost <= TextQuota(c, model, prompt, completion) as real < cost + 1.0
      else TextQuota(c, model, prompt, completion) == 0
  {
  }

  /** The counter takes the same cost, in millions and not rounded. */
  lemma TrackedCostIs(c: Option<PricedChannel>, model: string, prompt: int, completion: int)
    ensures c.None? || c.value.billingMode != 1 ==> TrackedCost(c, model, prompt, completion) == 0.0
    ensures c.Some? && c.value.billingMode == 1 ==>
      var p := if model in c.value.modelPrices then c.value.modelPrices[model]
               else Price(c.value.priceIn, c.value.priceOut);
      1000000.0 * TrackedCost(c, model, prompt, completion) == prompt as real * p.input + completion as real * p.output
  {
    if c.Some? && c.value.billingMode == 1 {
      var p := if model in c.value.modelPrices then c.value.modelPrices[model]
               else Price(c.value.priceIn, c.value.priceOut);
      ScaleDown(prompt as real, p.input);
      ScaleDown(completion as real, p.output);
    }
  }

  /** An audio request is charged its characters or recognised tokens at the input price, rounded up. */
  lemma AudioQuotaIs(c: Option<PricedChannel>, model: string, tokens: int)
    ensures c.None? || c.value.billingMode != 1 ==> AudioQuota(c, model, tokens) == 0
    ensures c.Some? && c.value.billingMode == 1 ==>
      var input := if model in c.value.modelPrices then c.value.modelPrices[model].input else c.value.priceIn;
      tokens as real * input <= AudioQuota(c, model, tokens) as real < tokens as real * input + 1.0
  {
  }

  /**
   An image request is charged, for each image, a thousand tokens times the cost ratio at the input price, each
   product rounded up; Replicate always returns one image.
   */
  lemma ImageQuotaIs(c: PricedChannel, model: string, costRatio: real, n: int, replicate: bool,
                     input: real, tokens: int, perImage: int)
    requires c.billingMode == 1
    requires input == if model in c.modelPrices then c.modelPrices[model].input else c.priceIn
    requires 1000.0 * costRatio <= tokens as real < 1000.0 * costRatio + 1.0
    requires tokens as real * input <= perImage as real < tokens as real * input + 1.0
    ensures ImageQuota(Some(c), model, costRatio, n, replicate)
         == if input <= 0.0 then 0 else if replicate then perImage else perImage * n
  {
    CeilIs(1000.0 * costRatio, tokens);
    CeilIs(Priced(tokens, input), perImage);
    ImageQuotaByPart(c, model, costRatio, n, replicate, input, perImage);
  }

  lemma CeilIs(x: real, n: int)
    requires x <= n as real < x + 1.0
    ensures Ceil(x) == n
  {
  }

  lemma ImageQuotaByPart(c: PricedChannel, model: string, costRatio: real, n: int, replicate: bool,
                         input: real, perImage: int)
    requires c.billingMode == 1 && input == GetModelPrice(c, model).input
    requires perImage == Ceil(Priced(Ceil(1000.0 * costRatio), input))
    ensures ImageQuota(Some(c), model, costRatio, n, replicate)
         == if input <= 0.0 then 0 else if replicate then perImage else perImage * n
  {
  }

  lemma UnmeteredImageIsFree(c: Option<PricedChannel>, model: string, costRatio: real, n: int, replicate: bool)
    requires c.None? || c.value.billingMode != 1
    ensures ImageQuota(c, model, costRatio, n, replicate) == 0
  {
  }

  /** For one: a model with a price of its own, on a channel without. */
  lemma ListedModelIsCharged()
    ensures var c := PricedChannel(1, map["gpt-4" := Price(30.0, 60.0)], 0.0, 0.0);
      TextQuota(Some(c), "gpt-4", 1000, 500) == 60000 && TextQuota(Some(c), "other", 1000, 500) == 0
  {
    var c := PricedChannel(1, map["gpt-4" := Price(30.0, 60.0)], 0.0, 0.0);
    TextQuotaIs(Some(c), "gpt-4", 1000, 500);
  }

  datatype Settled = Settled(channel: Option<PricedChannel>, model: string, promptTokens: nat, completionTokens: nat)

  function Charged(s: Settled): int { TextQuota(s.channel, s.model, s.promptTokens, s.completionTokens) }
  function Tracked(s: Settled): real { TrackedCost(s.channel, s.model, s.promptTokens, s.completionTokens) }

  function TotalCharged(ss: seq<Settled>): int {
    if ss == [] then 0 else TotalCharged(ss[..|ss| - 1]) + Charged(ss[|ss| - 1])
  }

  function TotalTracked(ss: seq<Settled>): real {
    if ss == [] then 0.0 else TotalTracked(ss[..|ss| - 1]) + Tracked(ss[|ss| - 1])
  }

  lemma ScaleDown(tokens: real, price: real)
    ensures 1000000.0 * ((tokens / 1000000.0) * price) == tokens * price
  {
    var m := tokens / 1000000.0;
    assert 1000000.0 * m == tokens;
    assert (1000000.0 * m) * price == 1000000.0 * (m * price);
  }

  /** One settlement: the ledger rounds the metered cost up, by less than one unit. */
  lemma MeterOne(s: Settled)
    requires s.channel.Some? ==> NonNegative(s.channel.value)
    ensures 0.0 <= Charged(s) as real - 1000000.0 * Tracked(s) < 1.0
  {
    if s.channel.Some? && s.channel.value.billingMode == BILLING_MODE_PER_TOKEN {
      var p := GetModelPrice(s.channel.value, s.model);
      var a, b := s.promptTokens as real, s.completionTokens as real;
      ScaleDown(a, p.input);
      ScaleDown(b, p.output);
      assert 1000000.0 * Tracked(s) == a * p.input + b * p.output;
      if s.promptTokens + s.completionTokens == 0 {
        assert a == 0.0 && b == 0.0;
      } else if !(p.input > 0.0 || p.output > 0.0) {
        assert p.input == 0.0 && p.output == 0.0;
      }
    }
  }

  /** The two meters agree: over n settlements the ledger is ahead of the usage counter by less than n units. */
  lemma {:induction false} MetersAgree(ss: seq<Settled>)
    requires forall s :: s in ss && s.channel.Some? ==> NonNegative(s.channel.value)
    ensures 0.0 <= TotalCharged(ss) as real - 1000000.0 * TotalTracked(ss)
    ensures ss != [] ==> TotalCharged(ss) as real - 1000000.0 * TotalTracked(ss) < |ss| as real
  {
    if ss != [] {
      MetersAgree(ss[..|ss| - 1]);
      MeterOne(ss[|ss| - 1]);
    }
  }
}
