/**
 The broker's counts and spend as the source updates them, in place under
 their locks (usage.rs). Each method is proved to do exactly the step of
 module `Usages`.
 */
module UsageImplementation {
  import opened Wrappers
  import opened Numbers
  import opened Records
  import opened Registry
  import U = Usages
  import W = Weeks

  class BrokerUsage {
    var anthropic: U.Counts
    var codex: U.Counts
    var mistral: U.Counts
    var unproven: Option<U.Counts>
    var operators: map<string, U.Counts>
    var publicOperators: set<string>
    var spend: Option<U.Spend>

    constructor ()
      ensures View() == U.UNUSED
    {
      anthropic, codex, mistral := U.NO_COUNTS, U.NO_COUNTS, U.NO_COUNTS;
      unproven, operators, publicOperators, spend := None, map[], {}, None;
    }

    ghost function View(): U.Broker
      reads this
    {
      U.Broker(anthropic, codex, mistral, unproven, operators, publicOperators, spend)
    }

    method MeterSpend(now: nat)
      modifies this`spend
      ensures View() == U.Metering(old(View()), now)
    {
      if spend.None? {
        var weeks := map name | name in operators :: [];
        spend := Some(U.Spend(now, U.PerConsumer([], []), weeks, U.PerConsumer([], [])));
      }
    }

    method DeclareOperator(operator: string, consumer: Consumer)
      modifies this
      ensures View() == U.Declared(old(View()), operator, consumer)
    {
      if operator !in operators {
        if |operators| >= U.MAX_LISTED_OPERATORS {
          return;
        }
        operators := operators[operator := U.NO_COUNTS];
        if spend.Some? {
          spend := Some(spend.value.(operators := spend.value.operators[operator := []]));
        }
      }
      if consumer == Public {
        publicOperators := publicOperators + {operator};
      } else {
        publicOperators := publicOperators - {operator};
      }
    }

    /** `price` is the price table, in millionths of a USD. */
    method SettleSpend(price: Usage -> Option<u64>, payer: U.Payer, usage: Option<Usage>, success: bool, now: nat)
      modifies this`spend
      ensures View() == U.SettledSpend(old(View()), price, payer, usage, success, now)
    {
      var charge: W.Charge;
      if usage.Some? {
        charge := if price(usage.value).Some? then W.Priced(price(usage.value).value) else W.Unpriced;
      } else if success {
        charge := W.Unmetered;
      } else {
        return;
      }
      if spend.None? {
        return;
      }
      var s, hour, consumer := spend.value, now / 3600, payer.consumer;
      if payer.operator.None? {
        s := s.(runs := s.runs.With(consumer, W.Added(s.runs.At(consumer), hour, charge)));
      } else if payer.operator.value in s.operators {
        var name := payer.operator.value;
        s := s.(operators := s.operators[name := W.Added(s.operators[name], hour, charge)]);
      } else {
        return;
      }
      if payer.provider == Some(U.Mistral) {
        s := s.(mistral := s.mistral.With(consumer, W.Added(s.mistral.At(consumer), hour, charge)));
      }
      spend := Some(s);
    }

    method Settle(provider: U.Provider, usage: Option<Usage>, success: bool)
      modifies this`anthropic, this`codex, this`mistral
      ensures View() == U.SettledProvider(old(View()), provider, usage, success)
    {
      match provider {
        case Anthropic => anthropic := U.Counted(anthropic, usage, success);
        case Codex => codex := U.Counted(codex, usage, success);
        case Mistral => mistral := U.Counted(mistral, usage, success);
      }
    }

    method SettleOperator(operator: string, usage: Option<Usage>, success: bool)
      modifies this`operators
      ensures View() == U.SettledOperator(old(View()), operator, usage, success)
    {
      if operator in operators {
        operators := operators[operator := U.Counted(operators[operator], usage, success)];
      }
    }

    method SettleUnproven(usage: Option<Usage>, success: bool)
      modifies this`unproven
      ensures View() == U.SettledUnproven(old(View()), usage, success)
    {
      if unproven.None? {
        unproven := Some(U.NO_COUNTS);
      }
      unproven := Some(U.Counted(unproven.value, usage, success));
    }
  }
}
