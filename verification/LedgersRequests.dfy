/**
 Which ledger a request comes to be in, by what it asked for (filter.rs).

 A request names its cluster, and is injected with the broker's credential or
 passed through. The lemmas follow it to the ledgers: what it asked for never
 changes, nor what its response reported once it has ended; so once it is
 posted it is counted with the provider of its cluster, and with no other.
 */
module LedgersRequests {
  import opened Wrappers
  import opened Ledgers
  import LedgersAgree
  import U = Usages
  import S = Spending

  /** What a request asked for does not change, nor what its response came to once it has ended. */
  predicate Keeps(e: Exchange, next: Exchange) {
    && next.provider == e.provider && next.caller == e.caller && next.usageFree == e.usageFree && next.admitted == e.admitted
    && (e.stage != Open ==> next.stage != Open && next.reported == e.reported && next.success == e.success)
  }

  lemma PostingKeeps(g: Gateway, price: S.Price, id: nat, now: nat, i: nat)
    requires id < |g.exchanges| && i < |g.exchanges| && g.exchanges[id].stage != Open
    ensures Keeps(g.exchanges[i], Posted(g, price, id, now).exchanges[i])
  {
    LedgersAgree.PostChangesOne(g, price, id, now);
    var e := g.exchanges[id];
    PostedKeeps(e, IsListed(g, e), NumberOf(g, e));
  }

  lemma PostedKeeps(e: Exchange, listed: bool, number: Option<nat>)
    requires e.stage != Open
    ensures Keeps(e, PostedAs(e, listed, number))
  {
  }

  lemma AbandoningKeeps(g: Gateway, id: nat, i: nat)
    requires id < |g.exchanges| && i < |g.exchanges|
    ensures |Abandoned(g, id).exchanges| == |g.exchanges| && Keeps(g.exchanges[i], Abandoned(g, id).exchanges[i])
  {
    LedgersAgree.AbandonChangesOne(g, id);
  }

  lemma StepKeeps(g: Gateway, price: S.Price, step: Step, i: nat)
    requires Enabled(g, step) && i < |g.exchanges|
    ensures var t := Take(g, price, step); i < |t.exchanges| && Keeps(g.exchanges[i], t.exchanges[i])
  {
    match step {
      case Post(id, now) => PostingKeeps(g, price, id, now, i);
      case Abandon(id) => AbandoningKeeps(g, id, i);
      case _ =>
    }
  }

  lemma {:induction false} StepsKeep(price: S.Price, steps: seq<Step>, k: nat, id: nat)
    requires k <= |steps| && id < |After(price, steps[..k]).exchanges|
    ensures id < |After(price, steps).exchanges|
    ensures Keeps(After(price, steps[..k]).exchanges[id], After(price, steps).exchanges[id])
  {
    if k == |steps| {
      assert steps[..k] == steps;
    } else {
      var n := |steps| - 1;
      assert steps[..n][..k] == steps[..k];
      StepsKeep(price, steps[..n], k, id);
      if Enabled(After(price, steps[..n]), steps[n]) {
        StepKeeps(After(price, steps[..n]), price, steps[n], id);
      }
    }
  }

  /** The sender, as the caller the request is put down to. */
  predicate IsSender(caller: Caller, mode: Mode, sender: Sender) {
    if mode == PassThrough then caller.Nobody?
    else match sender
      case OfRun(key, _) => caller.ByRun? && caller.key == key
      case OfOperator(name, consumer) => caller == ByOperator(name, consumer)
  }

  /** The provider whose credential the cluster's requests use. */
  predicate UsesCredentialOf(step: Step, provider: U.Provider)
    requires step.Request?
  {
    && step.mode == Injected && !step.usageFree
    && match provider
       case Anthropic => step.cluster == "anthropic"
       case Codex => step.cluster == "inference-backend"
       case Mistral => step.cluster == "mistral"
  }

  lemma ClustersDiffer()
    ensures "anthropic" != "inference-backend" && "anthropic" != "mistral" && "inference-backend" != "mistral"
  {
    assert "anthropic"[0] == 'a' && "inference-backend"[0] == 'i' && "mistral"[0] == 'm';
  }

  /** What a request that is let in opens. */
  predicate OpensAs(e: Exchange, step: Step)
    requires step.Request?
  {
    && IsSender(e.caller, step.mode, step.sender)
    && (e.usageFree <==> step.mode == Injected && step.usageFree)
    && (forall provider :: e.provider == Some(provider) <==> UsesCredentialOf(step, provider))
  }

  lemma RequestOpens(g: Gateway, price: S.Price, step: Step)
    requires step.Request? && |Take(g, price, step).exchanges| > |g.exchanges|
    ensures OpensAs(Take(g, price, step).exchanges[|g.exchanges|], step)
  {
    ClustersDiffer();
  }

  /**
   A request that was let in at the `k`-th step, once its response has ended
   and been posted to its provider, is in the provider's ledger whose
   credential its cluster uses, if it was injected and may use tokens, and in
   no other's. It is put down to its sender throughout.
   */
  lemma RequestIsInItsLedger(price: S.Price, steps: seq<Step>, k: nat, id: nat, provider: U.Provider)
    requires k < |steps| && steps[k].Request? && id == |After(price, steps[..k]).exchanges|
    requires |After(price, steps[..k + 1]).exchanges| > id
    ensures id < |After(price, steps).exchanges|
    ensures var e := After(price, steps).exchanges[id];
            && IsSender(e.caller, steps[k].mode, steps[k].sender)
            && (!e.abandoned && e.stage.Rank() > 1 ==> (In(e, Provided(provider)) <==> UsesCredentialOf(steps[k], provider)))
  {
    var before := After(price, steps[..k]);
    assert steps[..k + 1][..k] == steps[..k];
    RequestOpens(before, price, steps[k]);
    StepsKeep(price, steps, k + 1, id);
    LedgersAgree.EveryLedgerIsItsTotal(price, steps);
    assert LedgersAgree.Sound(After(price, steps).exchanges[id]);
  }

  /** What a response reported when it ended is what it counts as, whatever happens after. */
  lemma EndedIsReported(price: S.Price, steps: seq<Step>, k: nat)
    requires k < |steps| && steps[k].End? && Enabled(After(price, steps[..k]), steps[k])
    ensures var id := steps[k].id;
            && id < |After(price, steps).exchanges|
            && After(price, steps).exchanges[id].reported == steps[k].reported
            && After(price, steps).exchanges[id].success == After(price, steps[..k]).exchanges[id].success
  {
    var before, id := After(price, steps[..k]), steps[k].id;
    assert steps[..k + 1][..k] == steps[..k];
    assert After(price, steps[..k + 1]) == Take(before, price, steps[k]);
    StepsKeep(price, steps, k + 1, id);
  }
}
