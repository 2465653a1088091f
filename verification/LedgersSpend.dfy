/**
 The week's spend among the gateway's ledgers (filter.rs, usage.rs).

 Every response that counts and has been posted that far was put to the spend
 once, as what it was; so the theorems of module `Spending` are about the
 gateway's responses.
 */
module LedgersSpend {
  import opened Wrappers
  import opened Records
  import opened Ledgers
  import LedgersAgree
  import U = Usages
  import S = Spending

  /** What bears on the spend. */
  ghost predicate SameSpend(a: U.Broker, b: U.Broker) {
    a.spend == b.spend && a.operators.Keys == b.operators.Keys && a.publicOperators == b.publicOperators
  }

  lemma SameSpendSteps(a: U.Broker, b: U.Broker, price: S.Price, e: S.Event)
    requires SameSpend(a, b)
    ensures SameSpend(S.Step(a, price, e), S.Step(b, price, e))
  {
    assert |a.operators| == |a.operators.Keys| == |b.operators|;
  }

  ghost predicate WasTold(g: Gateway, price: S.Price) {
    SameSpend(S.Exec(price, g.spending), g.broker)
  }

  lemma ToldMore(price: S.Price, spending: seq<S.Event>, e: S.Event)
    ensures S.Exec(price, spending + [e]) == S.Step(S.Exec(price, spending), price, e)
  {
    assert (spending + [e])[..|spending|] == spending;
  }

  /** Counting by provider, operator or proof leaves the spend alone. */
  lemma CountingKeepsSpend(b: U.Broker, price: S.Price, e: Exchange, now: nat)
    requires e.stage != AtSpend
    ensures SameSpend(b, PostedIn(b, price, e, now))
  {
  }

  lemma PostingKeepsTold(g: Gateway, price: S.Price, id: nat, now: nat)
    requires WasTold(g, price) && id < |g.exchanges|
    ensures WasTold(Posted(g, price, id, now), price)
  {
    var e := g.exchanges[id];
    if e.stage == AtSpend && Counts(e) {
      SpendIsTold(g, price, e, now);
    } else if e.stage != AtSpend {
      CountingKeepsSpend(g.broker, price, e, now);
    }
  }

  lemma SpendIsTold(g: Gateway, price: S.Price, e: Exchange, now: nat)
    requires WasTold(g, price) && e.stage == AtSpend && Counts(e)
    ensures SameSpend(S.Exec(price, Told(g.spending, e, now)), PostedIn(g.broker, price, e, now))
  {
    var settle := S.Settle(PayerOf(e), e.reported, e.success, now);
    ToldMore(price, g.spending, settle);
    SameSpendSteps(S.Exec(price, g.spending), g.broker, price, settle);
  }

  lemma StepKeepsTold(g: Gateway, price: S.Price, step: Step)
    requires WasTold(g, price) && Enabled(g, step)
    ensures WasTold(Take(g, price, step), price)
  {
    match step {
      case Post(id, now) => PostingKeepsTold(g, price, id, now);
      case Meter(now) =>
        ToldMore(price, g.spending, S.Meter(now));
        SameSpendSteps(S.Exec(price, g.spending), g.broker, price, S.Meter(now));
      case Declare(operator, consumer) =>
        ToldMore(price, g.spending, S.Declare(operator, consumer));
        SameSpendSteps(S.Exec(price, g.spending), g.broker, price, S.Declare(operator, consumer));
      case _ =>
    }
  }

  // ---------------------------------------------------------------------
  // What was put to the spend, and what the responses come to.

  datatype Bill = Bill(payer: U.Payer, reported: Option<Usage>, success: bool)

  /** The exchange was put to the spend, as what `bill` says. */
  predicate Billed(e: Exchange, bill: Bill) {
    && Counts(e) && !e.abandoned && e.stage.Rank() > 3
    && bill.reported == e.reported && bill.success == e.success
    && PaidBy(e, bill.payer)
  }

  /** The payer is the operator or else the runs, for the caller's consumer, and for the provider that answered. */
  predicate PaidBy(e: Exchange, payer: U.Payer) {
    && payer.provider == e.provider
    && match e.caller
       case Nobody => false
       case ByRun(_, consumer) => payer.operator == None && payer.consumer == consumer
       case ByOperator(name, consumer) => payer.operator == Some(name) && payer.consumer == consumer
  }

  function Once(happened: bool): nat {
    if happened then 1 else 0
  }

  function TimesBilled(es: seq<Exchange>, bill: Bill): nat {
    if es == [] then 0 else TimesBilled(es[..|es| - 1], bill) + Once(Billed(es[|es| - 1], bill))
  }

  predicate Tells(e: S.Event, bill: Bill) {
    e.Settle? && bill == Bill(e.payer, e.usage, e.success)
  }

  function TimesTold(spending: seq<S.Event>, bill: Bill): nat {
    if spending == [] then 0 else TimesTold(spending[..|spending| - 1], bill) + Once(Tells(spending[|spending| - 1], bill))
  }

  lemma {:induction false} TimesWith(es: seq<Exchange>, id: nat, e: Exchange, bill: Bill)
    requires id < |es|
    ensures TimesBilled(es[id := e], bill) + Once(Billed(es[id], bill)) == TimesBilled(es, bill) + Once(Billed(e, bill))
  {
    var n := |es| - 1;
    if id == n {
      assert es[id := e][..n] == es[..n];
    } else {
      assert es[id := e][..n] == es[..n][id := e];
      TimesWith(es[..n], id, e, bill);
    }
  }

  lemma OneMoreBilled(es: seq<Exchange>, e: Exchange, bill: Bill)
    ensures TimesBilled(es + [e], bill) == TimesBilled(es, bill) + Once(Billed(e, bill))
  {
    assert (es + [e])[..|es|] == es;
  }

  lemma OneMoreTold(spending: seq<S.Event>, e: S.Event, bill: Bill)
    ensures TimesTold(spending + [e], bill) == TimesTold(spending, bill) + Once(Tells(e, bill))
  {
    assert (spending + [e])[..|spending|] == spending;
  }

  predicate ToldOnce(g: Gateway, bill: Bill) {
    TimesTold(g.spending, bill) == TimesBilled(g.exchanges, bill)
  }

  /** Posting bills an exchange when it tells the spend. */
  lemma PostedBill(e: Exchange, listed: bool, number: Option<nat>, now: nat, bill: Bill)
    requires e.stage != Open && e.stage != Closed && !e.abandoned
    ensures Once(Billed(PostedAs(e, listed, number), bill)) ==
            Once(Billed(e, bill)) + Once(e.stage == AtSpend && Counts(e) && Tells(S.Settle(PayerOf(e), e.reported, e.success, now), bill))
  {
  }

  lemma PostingKeepsOnce(g: Gateway, price: S.Price, id: nat, now: nat, bill: Bill)
    requires ToldOnce(g, bill) && Enabled(g, Post(id, now)) && LedgersAgree.Sound(g.exchanges[id])
    ensures ToldOnce(Posted(g, price, id, now), bill)
  {
    var e := g.exchanges[id];
    var next := PostedAs(e, IsListed(g, e), NumberOf(g, e));
    TimesWith(g.exchanges, id, next, bill);
    PostedBill(e, IsListed(g, e), NumberOf(g, e), now, bill);
    if e.stage == AtSpend && Counts(e) {
      OneMoreTold(g.spending, S.Settle(PayerOf(e), e.reported, e.success, now), bill);
    }
  }

  lemma RequestingKeepsOnce(g: Gateway, mode: Mode, provider: Option<U.Provider>, usageFree: bool, sender: Sender, bill: Bill)
    requires ToldOnce(g, bill)
    ensures ToldOnce(Requested(g, mode, provider, usageFree, sender), bill)
  {
    var t := Requested(g, mode, provider, usageFree, sender);
    if |t.exchanges| > |g.exchanges| {
      var e := t.exchanges[|g.exchanges|];
      assert t.exchanges == g.exchanges + [e];
      OneMoreBilled(g.exchanges, e, bill);
    }
  }

  /** An exchange that is open, or was, without being posted since, is not billed. */
  lemma UnbilledKeepsOnce(g: Gateway, t: Gateway, id: nat, next: Exchange, bill: Bill)
    requires ToldOnce(g, bill) && id < |g.exchanges| && !Billed(g.exchanges[id], bill) && !Billed(next, bill)
    requires t.spending == g.spending && t.exchanges == g.exchanges[id := next]
    ensures ToldOnce(t, bill)
  {
    TimesWith(g.exchanges, id, next, bill);
  }

  lemma StepKeepsOnce(g: Gateway, price: S.Price, step: Step, bill: Bill)
    requires ToldOnce(g, bill) && Enabled(g, step) && LedgersAgree.AllSound(g)
    ensures ToldOnce(Take(g, price, step), bill)
  {
    var t := Take(g, price, step);
    match step {
      case Post(id, now) => PostingKeepsOnce(g, price, id, now, bill);
      case Request(mode, cluster, usageFree, sender) =>
        RequestingKeepsOnce(g, mode, ProviderOf(mode, cluster, usageFree), usageFree, sender, bill);
      case Respond(id, success) => UnbilledKeepsOnce(g, t, id, g.exchanges[id].(success := success), bill);
      case End(id, reported) => UnbilledKeepsOnce(g, t, id, g.exchanges[id].(stage := AtProvider, reported := reported), bill);
      case Abandon(id) => UnbilledKeepsOnce(g, t, id, AbandonedAs(g.exchanges[id], NumberOf(g, g.exchanges[id])), bill);
      case Meter(now) => OneMoreTold(g.spending, S.Meter(now), bill);
      case Declare(operator, consumer) => OneMoreTold(g.spending, S.Declare(operator, consumer), bill);
      case Call(_) =>
    }
  }

  /**
   After any steps the week's spend is what `Spending` makes of the metering,
   the declarations and the responses put to it, in that order; and those are
   the responses that count, each once, as what they reported.
   */
  lemma {:induction false} ResponsesAreSpentOnce(price: S.Price, steps: seq<Step>, bill: Bill)
    ensures var g := After(price, steps);
            WasTold(g, price) && TimesTold(g.spending, bill) == TimesBilled(g.exchanges, bill)
  {
    if steps != [] {
      var before, last := After(price, steps[..|steps| - 1]), steps[|steps| - 1];
      ResponsesAreSpentOnce(price, steps[..|steps| - 1], bill);
      if Enabled(before, last) {
        LedgersAgree.EveryLedgerIsItsTotal(price, steps[..|steps| - 1]);
        StepKeepsTold(before, price, last);
        StepKeepsOnce(before, price, last, bill);
      }
    }
  }
}
