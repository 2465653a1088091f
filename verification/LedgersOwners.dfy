/**
 Whose record a response is counted in (filter.rs, runs.rs).

 A record is found by the run's key when the response is settled. The lemmas
 show that it is always one of that key, and the one the request was admitted
 under unless the run was forgotten in between.
 */
module LedgersOwners {
  import opened Wrappers
  import opened Subjects
  import opened Ledgers
  import LedgersAgree
  import R = Registry
  import U = Usages
  import S = Spending

  /** Each key's latest record was given to it. */
  ghost predicate KeysAgree(g: Gateway) {
    && |g.keyOf| == |g.records|
    && forall k :: k in g.recordOf ==> g.recordOf[k] < |g.keyOf| && g.keyOf[g.recordOf[k]] == k
  }

  /** The record of that number was given to the exchange's run. */
  predicate Owns(keyOf: seq<RunKey>, e: Exchange, number: Option<nat>) {
    number.Some? ==> e.caller.ByRun? && number.value < |keyOf| && keyOf[number.value] == e.caller.key
  }

  predicate OwnsRecords(keyOf: seq<RunKey>, e: Exchange) {
    Owns(keyOf, e, e.record) && Owns(keyOf, e, e.admitted) && (e.caller.ByRun? ==> e.admitted.Some?)
  }

  ghost predicate AllOwn(g: Gateway) {
    forall i :: 0 <= i < |g.exchanges| ==> OwnsRecords(g.keyOf, g.exchanges[i])
  }

  /** What a step does to the numbers: it may give a key its next. */
  ghost predicate Numbers(g: Gateway, t: Gateway) {
    || (t.keyOf == g.keyOf && t.recordOf == g.recordOf && |t.records| == |g.records|)
    || (exists k :: Gives(g, t, k))
  }

  predicate Gives(g: Gateway, t: Gateway, k: RunKey) {
    t.keyOf == g.keyOf + [k] && t.recordOf == g.recordOf[k := |g.records|] && |t.records| == |g.records| + 1
  }

  lemma CallingNumbers(g: Gateway, e: R.Event)
    ensures var t := Called(g, e);
            if GivesRecord(g.registry, e) then Gives(g, t, KeyMinted(e)) else t.keyOf == g.keyOf && t.recordOf == g.recordOf && t.records == g.records
  {
  }

  lemma OthersLeaveNumbers(g: Gateway, price: S.Price, step: Step)
    requires Enabled(g, step) && !step.Call?
    ensures var t := Take(g, price, step); t.keyOf == g.keyOf && t.recordOf == g.recordOf && |t.records| == |g.records|
  {
  }

  lemma StepNumbers(g: Gateway, price: S.Price, step: Step)
    requires Enabled(g, step)
    ensures Numbers(g, Take(g, price, step))
  {
    if step.Call? {
      CallingNumbers(g, step.e);
    } else {
      OthersLeaveNumbers(g, price, step);
    }
  }

  lemma NumbersKeepKeys(g: Gateway, t: Gateway)
    requires KeysAgree(g) && Numbers(g, t)
    ensures KeysAgree(t)
  {
  }

  /** What a step makes of one exchange, as far as its records are concerned. */
  predicate Numbered(g: Gateway, e: Exchange, next: Exchange) {
    && next.caller == e.caller && next.admitted == e.admitted
    && (next.record == e.record || next.record == NumberOf(g, e) || next.record.None?)
    && (e.stage == Closed ==> next == e)
    && (next.stage != Closed ==> next.record == e.record)
  }

  lemma PostNumbersExchange(g: Gateway, price: S.Price, id: nat, now: nat, i: nat)
    requires id < |g.exchanges| && i < |g.exchanges| && g.exchanges[id].stage != Closed
    ensures Numbered(g, g.exchanges[i], Posted(g, price, id, now).exchanges[i])
  {
    var e := g.exchanges[id];
    LedgersAgree.PostChangesOne(g, price, id, now);
    PostingNumbers(g, e, IsListed(g, e));
  }

  lemma PostingNumbers(g: Gateway, e: Exchange, listed: bool)
    requires e.stage != Closed
    ensures Numbered(g, e, PostedAs(e, listed, NumberOf(g, e)))
  {
  }

  lemma AbandonNumbersExchange(g: Gateway, id: nat, i: nat)
    requires id < |g.exchanges| && i < |g.exchanges| && g.exchanges[id].stage != Closed
    ensures |Abandoned(g, id).exchanges| == |g.exchanges| && Numbered(g, g.exchanges[i], Abandoned(g, id).exchanges[i])
  {
  }

  lemma RequestNumbersExchange(g: Gateway, mode: Mode, provider: Option<U.Provider>, usageFree: bool, sender: Sender, i: nat)
    requires i < |g.exchanges|
    ensures var t := Requested(g, mode, provider, usageFree, sender); i < |t.exchanges| && t.exchanges[i] == g.exchanges[i]
  {
  }

  lemma StepNumbersExchange(g: Gateway, price: S.Price, step: Step, i: nat)
    requires Enabled(g, step) && i < |g.exchanges|
    ensures var t := Take(g, price, step); i < |t.exchanges| && Numbered(g, g.exchanges[i], t.exchanges[i])
  {
    match step {
      case Post(id, now) => PostNumbersExchange(g, price, id, now, i);
      case Abandon(id) => AbandonNumbersExchange(g, id, i);
      case Request(mode, cluster, usageFree, sender) =>
        RequestNumbersExchange(g, mode, ProviderOf(mode, cluster, usageFree), usageFree, sender, i);
      case _ =>
    }
  }

  /** A new exchange is in no record, and was admitted under its run's latest. */
  lemma NewExchange(g: Gateway, price: S.Price, step: Step)
    requires Enabled(g, step) && LedgersAgree.RecordsAgree(g) && |Take(g, price, step).exchanges| > |g.exchanges|
    ensures var t := Take(g, price, step);
            var e := t.exchanges[|g.exchanges|];
            && |t.exchanges| == |g.exchanges| + 1 && e.record.None? && e.stage == Open
            && (if e.caller.ByRun? then e.caller.key in t.recordOf && e.admitted == Some(t.recordOf[e.caller.key]) else e.admitted.None?)
  {
    assert step.Request?;
    if step.mode == Injected && step.sender.OfRun? {
      Admits(g, step.sender.key, step.sender.now);
    }
  }

  /** The run of a request that is admitted has a record. */
  lemma Admits(g: Gateway, key: RunKey, now: nat)
    requires LedgersAgree.RecordsAgree(g)
    ensures var (t, answer) := R.Step(g.registry, R.DoAdmit(key, now));
            answer.admitted.Ok? ==> key in t.runs && key in g.recordOf && g.recordOf[key] < |g.records|
  {
    var e := R.DoAdmit(key, now);
    if R.Step(g.registry, e).1.admitted.Ok? {
      LedgersAgree.CallingKeepsRecord(g, e, key);
      assert LedgersAgree.HasRecord(g, key);
    }
  }

  lemma MoreStillOwn(keyOf: seq<RunKey>, more: seq<RunKey>, e: Exchange)
    requires OwnsRecords(keyOf, e) && |keyOf| <= |more| && more[..|keyOf|] == keyOf
    ensures OwnsRecords(more, e)
  {
    assert forall i :: 0 <= i < |keyOf| ==> more[i] == keyOf[i];
  }

  lemma NumberedOwns(g: Gateway, e: Exchange, next: Exchange)
    requires KeysAgree(g) && OwnsRecords(g.keyOf, e) && Numbered(g, e, next)
    ensures OwnsRecords(g.keyOf, next)
  {
  }

  lemma StepKeepsOwn(g: Gateway, price: S.Price, step: Step)
    requires KeysAgree(g) && AllOwn(g) && LedgersAgree.RecordsAgree(g) && Enabled(g, step)
    ensures KeysAgree(Take(g, price, step)) && AllOwn(Take(g, price, step))
  {
    var t := Take(g, price, step);
    StepNumbers(g, price, step);
    NumbersKeepKeys(g, t);
    forall i | 0 <= i < |t.exchanges|
      ensures OwnsRecords(t.keyOf, t.exchanges[i])
    {
      if i < |g.exchanges| {
        StepKeepsOneOwn(g, price, step, i);
      } else {
        NewIsOwn(g, price, step);
      }
    }
  }

  lemma NewIsOwn(g: Gateway, price: S.Price, step: Step)
    requires KeysAgree(g) && LedgersAgree.RecordsAgree(g) && Enabled(g, step) && |Take(g, price, step).exchanges| > |g.exchanges|
    ensures var t := Take(g, price, step); |t.exchanges| == |g.exchanges| + 1 && OwnsRecords(t.keyOf, t.exchanges[|g.exchanges|])
  {
    StepNumbers(g, price, step);
    NumbersKeepKeys(g, Take(g, price, step));
    NewExchange(g, price, step);
  }

  lemma StepKeepsOneOwn(g: Gateway, price: S.Price, step: Step, i: nat)
    requires KeysAgree(g) && Enabled(g, step) && i < |g.exchanges| && OwnsRecords(g.keyOf, g.exchanges[i])
    ensures var t := Take(g, price, step); i < |t.exchanges| && OwnsRecords(t.keyOf, t.exchanges[i])
  {
    var t := Take(g, price, step);
    StepNumbers(g, price, step);
    StepNumbersExchange(g, price, step, i);
    NumberedOwns(g, g.exchanges[i], t.exchanges[i]);
    MoreStillOwn(g.keyOf, t.keyOf, t.exchanges[i]);
  }

  lemma {:induction false} EveryRunOwns(price: S.Price, steps: seq<Step>)
    ensures KeysAgree(After(price, steps)) && AllOwn(After(price, steps))
  {
    if steps != [] {
      var before, last := After(price, steps[..|steps| - 1]), steps[|steps| - 1];
      EveryRunOwns(price, steps[..|steps| - 1]);
      LedgersAgree.EveryLedgerIsItsTotal(price, steps[..|steps| - 1]);
      if Enabled(before, last) {
        StepKeepsOwn(before, price, last);
      }
    }
  }

  // ---------------------------------------------------------------------
  // The record is the one the request was admitted under.

  /** With the exchange still to be settled, the step gives its run's key a new record: the run it was of is forgotten. */
  predicate Renews(g: Gateway, step: Step, id: nat) {
    && id < |g.exchanges| && g.exchanges[id].stage != Closed && g.exchanges[id].caller.ByRun?
    && step.Call? && GivesRecord(g.registry, step.e) && KeyMinted(step.e) == g.exchanges[id].caller.key
    && g.exchanges[id].caller.key !in R.Seen(g.registry, step.e).runs
  }

  /** Some step did, between the request's admission and its settlement. */
  ghost predicate Renewed(price: S.Price, steps: seq<Step>, id: nat) {
    steps != [] &&
    var before, last := After(price, steps[..|steps| - 1]), steps[|steps| - 1];
    Renewed(price, steps[..|steps| - 1], id) || (Enabled(before, last) && Renews(before, last, id))
  }

  /**
   Until it is settled, the key's latest record is that of the admission
   exactly if it was not renewed; and so is then the record it is in.
   */
  predicate Tracks(g: Gateway, e: Exchange, renewed: bool) {
    && e.caller.ByRun? && e.admitted.Some?
    && (e.stage != Closed ==>
          && e.record.None? && e.caller.key in g.recordOf && g.recordOf[e.caller.key] >= e.admitted.value
          && (renewed <==> g.recordOf[e.caller.key] != e.admitted.value))
    && (e.stage == Closed && e.record.Some? ==> (renewed <==> e.record != e.admitted))
  }

  /** A record that is given now is none that was. */
  lemma CallTracks(g: Gateway, e: R.Event, id: nat, renewed: bool)
    requires Enabled(g, Call(e)) && KeysAgree(g) && id < |g.exchanges|
    requires Tracks(g, g.exchanges[id], renewed) && OwnsRecords(g.keyOf, g.exchanges[id])
    ensures Tracks(Called(g, e), g.exchanges[id], renewed || Renews(g, Call(e), id))
  {
    CallingNumbers(g, e);
  }

  lemma OtherTracks(g: Gateway, t: Gateway, e: Exchange, next: Exchange, renewed: bool)
    requires Tracks(g, e, renewed) && Numbered(g, e, next) && t.recordOf == g.recordOf
    ensures Tracks(t, next, renewed)
  {
  }

  lemma StepTracks(g: Gateway, price: S.Price, step: Step, id: nat, renewed: bool)
    requires Enabled(g, step) && KeysAgree(g) && id < |g.exchanges|
    requires Tracks(g, g.exchanges[id], renewed) && OwnsRecords(g.keyOf, g.exchanges[id])
    ensures var t := Take(g, price, step);
            id < |t.exchanges| && Tracks(t, t.exchanges[id], renewed || Renews(g, step, id))
  {
    if step.Call? {
      CallTracks(g, step.e, id, renewed);
    } else {
      StepNumbersExchange(g, price, step, id);
      OthersLeaveNumbers(g, price, step);
      OtherTracks(g, Take(g, price, step), g.exchanges[id], Take(g, price, step).exchanges[id], renewed);
    }
  }

  lemma {:induction false} NotYetRenewed(price: S.Price, steps: seq<Step>, id: nat)
    requires id >= |After(price, steps).exchanges|
    ensures !Renewed(price, steps, id)
  {
    if steps != [] {
      var before, last := After(price, steps[..|steps| - 1]), steps[|steps| - 1];
      if Enabled(before, last) && id < |before.exchanges| {
        StepNumbersExchange(before, price, last, id);
      }
      NotYetRenewed(price, steps[..|steps| - 1], id);
    }
  }

  lemma {:induction false} EveryRunTracks(price: S.Price, steps: seq<Step>, id: nat)
    requires id < |After(price, steps).exchanges| && After(price, steps).exchanges[id].caller.ByRun?
    ensures Tracks(After(price, steps), After(price, steps).exchanges[id], Renewed(price, steps, id))
  {
    var n := |steps| - 1;
    var before, last := After(price, steps[..n]), steps[n];
    if !Enabled(before, last) {
      EveryRunTracks(price, steps[..n], id);
    } else if id < |before.exchanges| {
      StepNumbersExchange(before, price, last, id);
      EveryRunTracks(price, steps[..n], id);
      EveryRunOwns(price, steps[..n]);
      assert OwnsRecords(before.keyOf, before.exchanges[id]);
      StepTracks(before, price, last, id, Renewed(price, steps[..n], id));
    } else {
      NotYetRenewed(price, steps[..n], id);
      LedgersAgree.EveryLedgerIsItsTotal(price, steps[..n]);
      NewExchange(before, price, last);
    }
  }

  /**
   A response is in a record of its own run's key, in no other run's; and in
   the one its request was admitted under if and only if the run was not
   forgotten, and its key registered again, before the response was settled.
   */
  lemma RecordIsTheRuns(price: S.Price, steps: seq<Step>, id: nat)
    requires id < |After(price, steps).exchanges| && After(price, steps).exchanges[id].record.Some?
    ensures var g := After(price, steps);
            var e := g.exchanges[id];
            && e.caller.ByRun? && e.record.value < |g.keyOf| && g.keyOf[e.record.value] == e.caller.key
            && (e.record == e.admitted <==> !Renewed(price, steps, id))
  {
    EveryRunOwns(price, steps);
    assert OwnsRecords(After(price, steps).keyOf, After(price, steps).exchanges[id]);
    EveryRunTracks(price, steps, id);
  }

  /**
   A response that ended and counts is in its provider's ledger and no other
   provider's, in that of the runs without proof exactly if it is one's, and
   otherwise only in its own operator's, or in a record of its own run's.
   */
  lemma EachIsInItsLedgers(price: S.Price, steps: seq<Step>, id: nat, provider: U.Provider, name: string, number: nat)
    requires var g := After(price, steps); id < |g.exchanges| && Done(g.exchanges[id])
    ensures var g := After(price, steps);
            var e := g.exchanges[id];
            && (In(e, Provided(provider)) <==> e.provider == Some(provider))
            && (In(e, UnprovenRuns) <==> e.caller.ByRun? && e.caller.key.Unproven?)
            && (In(e, Listed(name)) ==> e.caller == ByOperator(name, e.caller.consumer))
            && (In(e, OfRecord(number)) ==> e.caller.ByRun? && number < |g.keyOf| && g.keyOf[number] == e.caller.key)
  {
    LedgersAgree.EveryLedgerIsItsTotal(price, steps);
    EveryRunOwns(price, steps);
    var g := After(price, steps);
    assert LedgersAgree.Sound(g.exchanges[id]) && OwnsRecords(g.keyOf, g.exchanges[id]);
  }
}
