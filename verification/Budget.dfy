/** The budget of one run: steps reserved before a model call, cost and tokens charged after it. */
module BudgetTracking {
  import opened Basics

  /** Models are only told apart, so their names do not matter. */
  type ModelKey = nat

  /** One charge; the summariser's charges carry no model key. */
  datatype Charge = Charge(modelKey: Option<ModelKey>, cost: real, prompt: nat, completion: nat)

  /** All charges so far, the newest last. */
  datatype Charges = Nothing | Then(before: Charges, charge: Charge)

  datatype ModelUsage = ModelUsage(prompt: nat, completion: nat, cost: real)

  datatype Charged = Within | Exceeded | Invalid

  function Cost(charges: Charges): real {
    if charges.Nothing? then 0.0 else Cost(charges.before) + charges.charge.cost
  }

  function Prompt(charges: Charges): nat {
    if charges.Nothing? then 0 else Prompt(charges.before) + charges.charge.prompt
  }

  function Completion(charges: Charges): nat {
    if charges.Nothing? then 0 else Completion(charges.before) + charges.charge.completion
  }

  predicate NonNegative(charges: Charges) {
    charges.Nothing? || (NonNegative(charges.before) && charges.charge.cost >= 0.0)
  }

  predicate Names(charges: Charges, key: ModelKey) {
    charges.Then? && (charges.charge.modelKey == Some(key) || Names(charges.before, key))
  }

  /** The charges made under one key (`None`: those without a key). */
  function Of(charges: Charges, key: Option<ModelKey>): Charges {
    if charges.Nothing? then Nothing
    else if charges.charge.modelKey == key then Then(Of(charges.before, key), charges.charge)
    else Of(charges.before, key)
  }

  /** What the ledger of one key says, seen from the charges. */
  function UsageOf(charges: Charges, key: ModelKey): ModelUsage {
    var mine := Of(charges, Some(key));
    ModelUsage(Prompt(mine), Completion(mine), Cost(mine))
  }

  /** The total of the ledgers of the keys in `keys`. */
  function LedgerCost(charges: Charges, keys: seq<ModelKey>): real {
    if keys == [] then 0.0 else UsageOf(charges, keys[0]).cost + LedgerCost(charges, keys[1..])
  }

  lemma {:induction false} LedgerOneMore(charges: Charges, keys: seq<ModelKey>)
    requires charges.Then? && forall i, j | 0 <= i < j < |keys| :: keys[i] != keys[j]
    ensures LedgerCost(charges, keys)
            == LedgerCost(charges.before, keys)
               + (if charges.charge.modelKey.Some? && charges.charge.modelKey.value in keys then charges.charge.cost else 0.0)
  {
    if keys != [] {
      var rest := keys[1..];
      assert forall i :: 0 <= i < |rest| ==> rest[i] == keys[i + 1];
      LedgerOneMore(charges, rest);
      assert keys[0] !in rest && forall key :: key in keys <==> key == keys[0] || key in rest;
    }
  }

  lemma {:induction false} NoLedgers(keys: seq<ModelKey>)
    ensures LedgerCost(Nothing, keys) == 0.0
  {
    if keys != [] {
      NoLedgers(keys[1..]);
    }
  }

  /** No money is lost between the ledgers: for any list of distinct keys that names every key charged, the ledgers
      add up to the total less what was charged without a key. */
  lemma {:induction false} LedgersAddUp(charges: Charges, keys: seq<ModelKey>)
    requires forall i, j | 0 <= i < j < |keys| :: keys[i] != keys[j]
    requires forall key :: Names(charges, key) ==> key in keys
    ensures LedgerCost(charges, keys) + Cost(Of(charges, None)) == Cost(charges)
  {
    if charges.Nothing? {
      NoLedgers(keys);
    } else {
      LedgersAddUp(charges.before, keys);
      LedgerOneMore(charges, keys);
      assert charges.charge.modelKey.Some? ==> Names(charges, charges.charge.modelKey.value);
    }
  }

  lemma {:induction false} NamedIffCharged(charges: Charges, key: ModelKey)
    ensures Names(charges, key) <==> Of(charges, Some(key)).Then?
  {
    if charges.Then? {
      NamedIffCharged(charges.before, key);
    }
  }

  /** One ledger per key that was charged, each with the sums of its charges. */
  ghost predicate Ledgers(usage: map<ModelKey, ModelUsage>, charges: Charges) {
    && (forall key :: key in usage <==> Names(charges, key))
    && (forall key :: key in usage ==> usage[key] == UsageOf(charges, key))
  }

  function Booked(usage: map<ModelKey, ModelUsage>, c: Charge): map<ModelKey, ModelUsage> {
    if c.modelKey.None? then usage
    else
      var entry := if c.modelKey.value in usage then usage[c.modelKey.value] else ModelUsage(0, 0, 0.0);
      usage[c.modelKey.value := ModelUsage(entry.prompt + c.prompt, entry.completion + c.completion, entry.cost + c.cost)]
  }

  lemma {:induction false} BookedKeepsLedgers(usage: map<ModelKey, ModelUsage>, charges: Charges, c: Charge)
    requires Ledgers(usage, charges)
    ensures Ledgers(Booked(usage, c), Then(charges, c))
  {
    forall key | key in Booked(usage, c) ensures Booked(usage, c)[key] == UsageOf(Then(charges, c), key) {
      if c.modelKey == Some(key) {
        NamedIffCharged(charges, key);
        var mine := Of(charges, Some(key));
        assert Of(Then(charges, c), Some(key)) == Then(mine, c);
        if key !in usage {
          assert mine == Nothing && Cost(mine) == 0.0 && Prompt(mine) == 0 && Completion(mine) == 0;
        }
        assert Cost(Then(mine, c)) == Cost(mine) + c.cost;
      } else {
        assert Of(Then(charges, c), Some(key)) == Of(charges, Some(key));
      }
    }
  }

  class Budget {
    const maxSteps: int
    const maxCost: real
    var stepsUsed: nat
    var costUsed: real
    var promptUsed: nat
    var completionUsed: nat
    var usageByModel: map<ModelKey, ModelUsage>
    ghost var charges: Charges

    /** The counters are exactly what was charged. */
    ghost predicate Valid() reads this {
      && costUsed == Cost(charges) && promptUsed == Prompt(charges) && completionUsed == Completion(charges)
      && NonNegative(charges) && Ledgers(usageByModel, charges)
    }

    constructor (maxSteps: int, maxCost: real)
      ensures Valid() && this.maxSteps == maxSteps && this.maxCost == maxCost && stepsUsed == 0 && charges == Nothing
    {
      this.maxSteps, this.maxCost := maxSteps, maxCost;
      stepsUsed, costUsed, promptUsed, completionUsed, usageByModel := 0, 0.0, 0, 0, map[];
      charges := Nothing;
    }

    /** `false` is the budget error: nothing is reserved then. */
    method ReserveStep() returns (ok: bool)
      requires Valid()
      modifies this`stepsUsed
      ensures Valid()
      ensures ok <==> old(stepsUsed) < maxSteps
      ensures stepsUsed == old(stepsUsed) + (if ok then 1 else 0)
    {
      var attempted := stepsUsed + 1;
      if attempted > maxSteps {
        return false;
      }
      stepsUsed := attempted;
      return true;
    }

    /** Money and tokens are booked before the limit is checked; an invalid charge books nothing. */
    method RecordCost(modelKey: Option<ModelKey>, cost: real, prompt: int, completion: int) returns (r: Charged)
      requires Valid()
      modifies this`costUsed, this`promptUsed, this`completionUsed, this`usageByModel, this`charges
      ensures Valid()
      ensures r == Invalid <==> cost < 0.0 || prompt < 0 || completion < 0
      ensures r == Invalid ==> charges == old(charges)
      ensures r != Invalid ==> charges == Then(old(charges), Charge(modelKey, cost, prompt, completion))
      ensures r != Invalid ==> costUsed == old(costUsed) + cost && (r == Exceeded <==> costUsed > maxCost)
      ensures r != Invalid ==> promptUsed == old(promptUsed) + prompt && completionUsed == old(completionUsed) + completion
      ensures r != Invalid && modelKey.Some? ==>
                var was := if modelKey.value in old(usageByModel) then old(usageByModel)[modelKey.value] else ModelUsage(0, 0, 0.0);
                usageByModel == old(usageByModel)[modelKey.value :=
                                  ModelUsage(was.prompt + prompt, was.completion + completion, was.cost + cost)]
      ensures r == Invalid || modelKey.None? ==> usageByModel == old(usageByModel)
      ensures r == Invalid ==> costUsed == old(costUsed) && promptUsed == old(promptUsed) && completionUsed == old(completionUsed)
    {
      if cost < 0.0 || prompt < 0 || completion < 0 {
        return Invalid;
      }
      promptUsed := promptUsed + prompt;
      completionUsed := completionUsed + completion;
      costUsed := costUsed + cost;
      if modelKey.Some? {
        var key := modelKey.value;
        var entry := if key in usageByModel then usageByModel[key] else ModelUsage(0, 0, 0.0);
        usageByModel := usageByModel[key := ModelUsage(entry.prompt + prompt, entry.completion + completion, entry.cost + cost)];
      }
      ghost var c := Charge(modelKey, cost, prompt, completion);
      BookedKeepsLedgers(old(usageByModel), charges, c);
      charges := Then(charges, c);
      return if costUsed > maxCost then Exceeded else Within;
    }
  }
}
