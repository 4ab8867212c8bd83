/** The per-call cost estimate of `aipreneuros/utils/cost.py`, over `real`. */
module Cost {
  import opened Wrappers

  /** A price per thousand tokens: one price for all tokens, or separate
      prompt and completion prices. */
  datatype Price = Flat(perK: real) | Split(inputPerK: real, outputPerK: real)

  datatype PriceEntry = PriceEntry(model: string, price: Price)

  /** The `price1K` table, in source order. */
  const PriceTable: seq<PriceEntry> := [
    PriceEntry("text-ada-001", Flat(0.0004)),
    PriceEntry("text-babbage-001", Flat(0.0005)),
    PriceEntry("text-curie-001", Flat(0.002)),
    PriceEntry("code-cushman-001", Flat(0.024)),
    PriceEntry("code-davinci-002", Flat(0.1)),
    PriceEntry("text-davinci-002", Flat(0.02)),
    PriceEntry("text-davinci-003", Flat(0.02)),
    PriceEntry("gpt-3.5-turbo", Split(0.0015, 0.002)),
    PriceEntry("gpt-3.5-turbo-instruct", Split(0.0015, 0.002)),
    PriceEntry("gpt-3.5-turbo-0301", Split(0.0015, 0.002)),
    PriceEntry("gpt-3.5-turbo-0613", Split(0.0015, 0.002)),
    PriceEntry("gpt-3.5-turbo-16k", Split(0.003, 0.004)),
    PriceEntry("gpt-3.5-turbo-16k-0613", Split(0.003, 0.004)),
    PriceEntry("gpt-35-turbo", Split(0.0015, 0.002)),
    PriceEntry("gpt-35-turbo-16k", Split(0.003, 0.004)),
    PriceEntry("gpt-35-turbo-instruct", Split(0.0015, 0.002)),
    PriceEntry("gpt-4", Split(0.03, 0.06)),
    PriceEntry("gpt-4-32k", Split(0.06, 0.12)),
    PriceEntry("gpt-4-0314", Split(0.03, 0.06)),
    PriceEntry("gpt-4-32k-0314", Split(0.06, 0.12)),
    PriceEntry("gpt-4-0613", Split(0.03, 0.06)),
    PriceEntry("gpt-4-32k-0613", Split(0.06, 0.12)),
    PriceEntry("gpt-4-1106-preview", Split(0.01, 0.03)),
    PriceEntry("gpt-4-1106-vision-preview", Split(0.01, 0.03))
  ]

  predicate Positive(p: Price) {
    match p
    case Flat(q) => q > 0.0
    case Split(a, b) => a > 0.0 && b > 0.0
  }

  predicate AllPositive(table: seq<PriceEntry>) {
    forall i :: 0 <= i < |table| ==> Positive(table[i].price)
  }

  predicate Listed(table: seq<PriceEntry>, model: string) {
    exists i :: 0 <= i < |table| && table[i].model == model
  }

  /** The first entry of `table` for `model`, if there is one. */
  function PriceIn(table: seq<PriceEntry>, model: string): (p: Option<Price>)
    requires AllPositive(table)
    ensures p.Some? <==> Listed(table, model)
    ensures p.Some? ==> Positive(p.value)
    ensures p.Some? ==> exists i :: 0 <= i < |table| && table[i] == PriceEntry(model, p.value)
    decreases |table|
  {
    if |table| == 0 then None
    else if table[0].model == model then
      assert table[0] == PriceEntry(model, table[0].price);
      Some(table[0].price)
    else
      var p := PriceIn(table[1..], model);
      assert Listed(table, model) ==> Listed(table[1..], model) by {
        if Listed(table, model) {
          var i :| 0 <= i < |table| && table[i].model == model;
          assert i > 0 && table[1..][i - 1].model == model;
        }
      }
      assert p.Some? ==> exists i :: 0 <= i < |table| && table[i] == PriceEntry(model, p.value) by {
        if p.Some? {
          var i :| 0 <= i < |table[1..]| && table[1..][i] == PriceEntry(model, p.value);
          assert table[i + 1] == PriceEntry(model, p.value);
        }
      }
      p
  }

  lemma TablePositive()
    ensures AllPositive(PriceTable)
  {
  }

  /** `price1K.get(model)`: the price of a listed model, which is positive
      and is the price the table gives that name. */
  function PriceOf(model: string): (p: Option<Price>)
    ensures p.Some? <==> Listed(PriceTable, model)
    ensures p.Some? ==> Positive(p.value)
    ensures p.Some? ==> exists i :: 0 <= i < |PriceTable| && PriceTable[i] == PriceEntry(model, p.value)
  {
    TablePositive();
    PriceIn(PriceTable, model)
  }

  /** The cost of a call at price `p` per thousand tokens. */
  function CostAt(p: Option<Price>, inputTokens: int, outputTokens: int): real
  {
    match p
    case None => 0.0
    case Some(Split(pin, pout)) => (pin * inputTokens as real + pout * outputTokens as real) / 1000.0
    case Some(Flat(q)) => q * (inputTokens + outputTokens) as real / 1000.0
  }

  /** `estimate_cost(model, n_input_tokens, n_output_tokens)`: an unlisted
      model costs nothing; a listed one is charged its table price. */
  function EstimateCost(model: string, inputTokens: int, outputTokens: int): (c: real)
    ensures !Listed(PriceTable, model) ==> c == 0.0
    ensures Listed(PriceTable, model) ==>
              exists i :: 0 <= i < |PriceTable| && PriceTable[i].model == model &&
                c == CostAt(Some(PriceTable[i].price), inputTokens, outputTokens)
  {
    CostAt(PriceOf(model), inputTokens, outputTokens)
  }

  lemma ProductNonNegative(a: real, b: real)
    requires a >= 0.0 && b >= 0.0
    ensures a * b >= 0.0
  {
  }

  lemma ProductMonotone(a: real, b1: real, b2: real)
    requires a >= 0.0 && b1 <= b2
    ensures a * b1 <= a * b2
  {
    ProductNonNegative(a, b2 - b1);
    assert a * b2 - a * b1 == a * (b2 - b1);
  }

  lemma CostAtNonNegative(p: Option<Price>, inputTokens: nat, outputTokens: nat)
    requires p.Some? ==> Positive(p.value)
    ensures CostAt(p, inputTokens, outputTokens) >= 0.0
  {
    match p
    case None =>
    case Some(Split(pin, pout)) =>
      ProductNonNegative(pin, inputTokens as real);
      ProductNonNegative(pout, outputTokens as real);
    case Some(Flat(q)) =>
      ProductNonNegative(q, (inputTokens + outputTokens) as real);
  }

  lemma CostAtMonotone(p: Option<Price>, in1: int, in2: int, out1: int, out2: int)
    requires p.Some? ==> Positive(p.value)
    requires in1 <= in2 && out1 <= out2
    ensures CostAt(p, in1, out1) <= CostAt(p, in2, out2)
  {
    match p
    case None =>
    case Some(Split(pin, pout)) =>
      ProductMonotone(pin, in1 as real, in2 as real);
      ProductMonotone(pout, out1 as real, out2 as real);
    case Some(Flat(q)) =>
      ProductMonotone(q, (in1 + out1) as real, (in2 + out2) as real);
  }

  /** Every estimate is non-negative for non-negative token counts. */
  lemma CostNonNegative(model: string, inputTokens: nat, outputTokens: nat)
    ensures EstimateCost(model, inputTokens, outputTokens) >= 0.0
  {
    CostAtNonNegative(PriceOf(model), inputTokens, outputTokens);
  }

  /** More prompt tokens or more completion tokens never cost less. */
  lemma CostMonotone(model: string, in1: int, in2: int, out1: int, out2: int)
    requires in1 <= in2 && out1 <= out2
    ensures EstimateCost(model, in1, out1) <= EstimateCost(model, in2, out2)
  {
    CostAtMonotone(PriceOf(model), in1, in2, out1, out2);
  }

  /** A model named once in the table is charged that entry's price. */
  lemma {:induction false} UniqueEntry(table: seq<PriceEntry>, i: nat)
    requires AllPositive(table) && i < |table|
    requires forall j :: 0 <= j < |table| && j != i ==> table[j].model != table[i].model
    ensures PriceIn(table, table[i].model) == Some(table[i].price)
    decreases i
  {
    if i > 0 {
      UniqueEntry(table[1..], i - 1);
    }
  }

  /** A thousand prompt and a thousand completion tokens of `gpt-4` cost
      0.09. */
  lemma SamplePriceGpt4()
    ensures EstimateCost("gpt-4", 1000, 1000) == 0.09
  {
    TablePositive();
    assert forall j :: 0 <= j < |PriceTable| && j != 16 ==> PriceTable[j].model != "gpt-4";
    UniqueEntry(PriceTable, 16);
  }

  /** `text-davinci-003` has one flat rate: two thousand tokens cost 0.04. */
  lemma SamplePriceDavinci()
    ensures EstimateCost("text-davinci-003", 1000, 1000) == 0.04
  {
    TablePositive();
    assert forall j :: 0 <= j < |PriceTable| && j != 6 ==> PriceTable[j].model != "text-davinci-003";
    UniqueEntry(PriceTable, 6);
  }

  /** A model missing from the table is free. */
  lemma SamplePriceUnlisted()
    ensures EstimateCost("gpt-4o", 1000, 1000) == 0.0
  {
    assert !Listed(PriceTable, "gpt-4o");
  }

  /** One completion's usage report. */
  datatype Usage = Usage(model: string, promptTokens: nat, completionTokens: nat)

  /** `estimate_cost_of_completion`: the cost of one completion, added to the
      running total. */
  function AccrueCost(total: real, usage: Usage): (r: (real, real))
    ensures r.1 == EstimateCost(usage.model, usage.promptTokens, usage.completionTokens)
    ensures r.0 == total + r.1
    ensures r.0 >= total
  {
    CostNonNegative(usage.model, usage.promptTokens, usage.completionTokens);
    var c := EstimateCost(usage.model, usage.promptTokens, usage.completionTokens);
    (total + c, c)
  }
}
