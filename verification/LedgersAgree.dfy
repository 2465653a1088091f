/**
 Invariants of the gateway's ledgers, and how they agree (filter.rs).

 Every ledger holds the exact sum of the responses posted to it, clipped once.
 When no response is being posted, what the three providers' counts hold and
 what the runs' records and the operators' counts hold differ only by the
 responses that one side has no ledger for.
 */
module LedgersAgree {
  import opened Wrappers
  import opened Numbers
  import opened Records
  import opened Subjects
  import opened Ledgers
  import A = Admissions
  import RegistryInvariants
  import R = Registry
  import U = Usages
  import S = Spending

  // ---------------------------------------------------------------------
  // Each ledger is its total.

  function Shown(t: Tallies): U.Counts {
    U.Counts(Sat(t.requests), Sat(t.unmetered), t.tokens)
  }

  /** What a ledger holds. One that is not kept yet, or not kept, holds nothing. */
  function Held(g: Gateway, book: Book): U.Counts
    requires book.IsLedger()
  {
    match book
    case Provided(Anthropic) => g.broker.anthropic
    case Provided(Codex) => g.broker.codex
    case Provided(Mistral) => g.broker.mistral
    case UnprovenRuns => if g.broker.unproven.Some? then g.broker.unproven.value else U.NO_COUNTS
    case Listed(name) => if name in g.broker.operators then g.broker.operators[name] else U.NO_COUNTS
    case OfRecord(number) => if number < |g.records| then Shown(g.records[number]) else U.NO_COUNTS
  }

  ghost predicate Kept(g: Gateway, book: Book)
    requires book.IsLedger()
  {
    Held(g, book) == ClipTally(Total(g.exchanges, book))
  }

  ghost predicate AllKept(g: Gateway) {
    forall book: Book :: book.IsLedger() ==> Kept(g, book)
  }

  /** Which ledgers an exchange can be in by its stage. */
  predicate Sound(e: Exchange) {
    && (e.provider.Some? ==> Counts(e))
    && (e.stage == Open ==> e.reported.None? && !e.abandoned)
    && (if e.abandoned then
          e.stage == Closed && e.reported.None? && !e.inProvider && !e.inUnproven && !e.inOperator
        else
          && e.inProvider == (e.provider.Some? && e.stage.Rank() > 1)
          && e.inUnproven == (Counts(e) && e.caller.ByRun? && e.caller.key.Unproven? && e.stage.Rank() > 2)
          && (e.inOperator ==> e.stage.Rank() > 2)
          && (e.record.Some? ==> e.stage.Rank() > 4))
    && (e.inOperator ==> Counts(e) && e.caller.ByOperator?)
    && (e.record.Some? ==> Counts(e) && e.caller.ByRun?)
  }

  ghost predicate AllSound(g: Gateway) {
    forall i :: 0 <= i < |g.exchanges| ==> Sound(g.exchanges[i])
  }

  /** The run's record is the one of its number. */
  predicate HasRecord(g: Gateway, key: RunKey)
    requires key in g.registry.runs
  {
    key in g.recordOf && g.recordOf[key] < |g.records| && g.records[g.recordOf[key]] == g.registry.runs[key].record.used
  }

  ghost predicate RecordsAgree(g: Gateway) {
    && (forall k :: k in g.registry.runs ==> HasRecord(g, k))
    && (forall j, k :: j in g.registry.runs && k in g.registry.runs && g.recordOf[j] == g.recordOf[k] ==> j == k)
  }

  // ---------------------------------------------------------------------
  // Steps keep the records.

  /** Pruning and the step leave what a run has used as it was, but for a settlement. */
  lemma UsedStays(s: R.State, e: R.Event, key: RunKey)
    requires !e.DoSettle? && key in R.Seen(s, e).runs
    ensures key in s.runs && key in R.Step(s, e).0.runs
    ensures R.Step(s, e).0.runs[key].record.used == s.runs[key].record.used
  {
    RegistryInvariants.PrunedRun(s, e.now, key);
    RegistryInvariants.ActOnRun(R.Seen(s, e), e, key);
  }

  lemma RegisterAddsOne(p: R.State, id: R.RunIdentity, limits: R.Limits, token: R.Token, now: nat, unix: u64, key: RunKey)
    requires key !in p.runs && key in R.Register(p, id, limits, token, now, unix).0.runs
    ensures key == R.KeyOf(id) && R.Register(p, id, limits, token, now, unix).0.runs[key].record.used == NOTHING_USED
  {
  }

  lemma RegisterUnprovenAddsOne(p: R.State, name: RunName, limits: R.Limits, quota: R.Quota, token: R.Token, now: nat, unix: u64, key: RunKey)
    requires key !in p.runs && key in R.RegisterUnproven(p, name, limits, quota, token, now, unix).0.runs
    ensures key == Unproven(name)
    ensures R.RegisterUnproven(p, name, limits, quota, token, now, unix).0.runs[key].record.used == NOTHING_USED
  {
  }

  lemma OthersAddNone(p: R.State, e: R.Event, key: RunKey)
    requires !e.Mints() && key !in p.runs
    ensures key !in R.Act(p, e).0.runs
  {
  }

  lemma NewRuns(s: R.State, e: R.Event, key: RunKey)
    requires key !in R.Seen(s, e).runs && key in R.Step(s, e).0.runs
    ensures GivesRecord(s, e) && key == KeyMinted(e) && R.Step(s, e).0.runs[key].record.used == NOTHING_USED
  {
    var p := R.Seen(s, e);
    match e {
      case DoRegister(id, limits, token, now, unix) => RegisterAddsOne(p, id, limits, token, now, unix, key);
      case DoRegisterUnproven(name, limits, quota, token, now, unix) =>
        RegisterUnprovenAddsOne(p, name, limits, quota, token, now, unix, key);
      case _ => OthersAddNone(p, e, key);
    }
  }

  lemma CallingKeepsRecord(g: Gateway, e: R.Event, key: RunKey)
    requires RecordsAgree(g) && !e.DoSettle? && key in R.Step(g.registry, e).0.runs
    ensures var t := Called(g, e);
            && HasRecord(t, key)
            && t.recordOf[key] == if key in R.Seen(g.registry, e).runs then g.recordOf[key] else |g.records|
    ensures key in R.Seen(g.registry, e).runs ==> key in g.registry.runs
  {
    if key in R.Seen(g.registry, e).runs {
      UsedStays(g.registry, e, key);
      assert HasRecord(g, key);
    } else {
      NewRuns(g.registry, e, key);
    }
  }

  lemma CallingKeepsRecords(g: Gateway, e: R.Event)
    requires RecordsAgree(g) && !e.DoSettle?
    ensures RecordsAgree(Called(g, e))
  {
    var t := Called(g, e);
    forall k | k in t.registry.runs
      ensures HasRecord(t, k)
    {
      CallingKeepsRecord(g, e, k);
    }
    forall j, k | j in t.registry.runs && k in t.registry.runs && t.recordOf[j] == t.recordOf[k]
      ensures j == k
    {
      CallingKeepsRecord(g, e, j);
      CallingKeepsRecord(g, e, k);
      DistinctRecords(g, e, j, k);
    }
  }

  lemma DistinctRecords(g: Gateway, e: R.Event, j: RunKey, k: RunKey)
    requires RecordsAgree(g) && j in R.Step(g.registry, e).0.runs && k in R.Step(g.registry, e).0.runs
    requires j in R.Seen(g.registry, e).runs ==> j in g.registry.runs
    requires k in R.Seen(g.registry, e).runs ==> k in g.registry.runs
    requires (if j in R.Seen(g.registry, e).runs then g.recordOf[j] else |g.records|)
             == (if k in R.Seen(g.registry, e).runs then g.recordOf[k] else |g.records|)
    ensures j == k
  {
    if j in R.Seen(g.registry, e).runs {
      assert HasRecord(g, j);
    } else {
      NewRuns(g.registry, e, j);
    }
    if k in R.Seen(g.registry, e).runs {
      assert HasRecord(g, k);
    } else {
      NewRuns(g.registry, e, k);
    }
  }

  lemma SettlingKeepsRecords(g: Gateway, e: Exchange, outcome: Outcome)
    requires RecordsAgree(g)
    ensures RecordsAgree(Settled(g, e, outcome))
  {
    var t := Settled(g, e, outcome);
    forall k | k in t.registry.runs
      ensures HasRecord(t, k)
    {
      assert HasRecord(g, k);
      assert e.caller.ByRun? && e.caller.key in g.registry.runs ==> HasRecord(g, e.caller.key);
    }
  }

  /** The rest of the state has no part in it. */
  lemma RecordsOnly(g: Gateway, t: Gateway)
    requires RecordsAgree(g) && t.registry == g.registry && t.records == g.records && t.recordOf == g.recordOf
    ensures RecordsAgree(t)
  {
    forall k | k in t.registry.runs
      ensures HasRecord(t, k)
    {
      assert HasRecord(g, k);
    }
  }

  lemma RequestingKeepsRecords(g: Gateway, mode: Mode, provider: Option<U.Provider>, usageFree: bool, sender: Sender)
    requires RecordsAgree(g)
    ensures RecordsAgree(Requested(g, mode, provider, usageFree, sender))
  {
    var t := Requested(g, mode, provider, usageFree, sender);
    if mode == Injected && sender.OfRun? {
      var e := R.DoAdmit(sender.key, sender.now);
      CallingKeepsRecords(g, e);
      RecordsOnly(Called(g, e), t);
    } else {
      RecordsOnly(g, t);
    }
  }

  lemma PostingKeepsRecords(g: Gateway, price: S.Price, id: nat, now: nat)
    requires RecordsAgree(g) && id < |g.exchanges|
    ensures RecordsAgree(Posted(g, price, id, now))
  {
    var e := g.exchanges[id];
    if e.stage == AtRun {
      var outcome := A.EndedOutcome(e.reported, e.success, e.usageFree);
      SettlingKeepsRecords(g, e, outcome);
      RecordsOnly(Settled(g, e, outcome), Posted(g, price, id, now));
    } else {
      RecordsOnly(g, Posted(g, price, id, now));
    }
  }

  lemma AbandoningKeepsRecords(g: Gateway, id: nat)
    requires RecordsAgree(g) && id < |g.exchanges|
    ensures RecordsAgree(Abandoned(g, id))
  {
    var e := g.exchanges[id];
    var outcome := A.AbandonedOutcome(e.success, e.usageFree);
    SettlingKeepsRecords(g, e, outcome);
    RecordsOnly(Settled(g, e, outcome), Abandoned(g, id));
  }

  lemma StepKeepsRecords(g: Gateway, price: S.Price, step: Step)
    requires RecordsAgree(g) && Enabled(g, step)
    ensures RecordsAgree(Take(g, price, step))
  {
    match step {
      case Call(e) => CallingKeepsRecords(g, e);
      case Request(mode, cluster, usageFree, sender) =>
        RequestingKeepsRecords(g, mode, ProviderOf(mode, cluster, usageFree), usageFree, sender);
      case Post(id, now) => PostingKeepsRecords(g, price, id, now);
      case Abandon(id) => AbandoningKeepsRecords(g, id);
      case _ => RecordsOnly(g, Take(g, price, step));
    }
  }

  // ---------------------------------------------------------------------
  // Steps keep the exchanges sound.

  lemma PostingIsSound(e: Exchange, listed: bool, number: Option<nat>)
    requires Sound(e) && e.stage != Closed && e.stage != Open && (number.Some? ==> e.caller.ByRun?)
    ensures Sound(PostedAs(e, listed, number))
  {
  }

  lemma AbandoningIsSound(e: Exchange, number: Option<nat>)
    requires Sound(e) && e.stage == Open && (number.Some? ==> e.caller.ByRun?)
    ensures Sound(AbandonedAs(e, number))
  {
  }

  lemma RequestIsSound(g: Gateway, mode: Mode, cluster: string, usageFree: bool, sender: Sender)
    requires AllSound(g)
    ensures AllSound(Requested(g, mode, ProviderOf(mode, cluster, usageFree), usageFree, sender))
  {
    var t := Requested(g, mode, ProviderOf(mode, cluster, usageFree), usageFree, sender);
    assert t.exchanges == g.exchanges || (|t.exchanges| == |g.exchanges| + 1 && t.exchanges[..|g.exchanges|] == g.exchanges);
    forall i | 0 <= i < |t.exchanges|
      ensures Sound(t.exchanges[i])
    {
      if i < |g.exchanges| {
        assert t.exchanges[..|g.exchanges|][i] == t.exchanges[i];
      }
    }
  }

  lemma StepKeepsSound(g: Gateway, price: S.Price, step: Step)
    requires AllSound(g) && Enabled(g, step)
    ensures AllSound(Take(g, price, step))
  {
    match step {
      case Request(mode, cluster, usageFree, sender) => RequestIsSound(g, mode, cluster, usageFree, sender);
      case Post(id, now) =>
        PostingIsSound(g.exchanges[id], IsListed(g, g.exchanges[id]), NumberOf(g, g.exchanges[id]));
      case Abandon(id) => AbandoningIsSound(g.exchanges[id], NumberOf(g, g.exchanges[id]));
      case _ =>
    }
  }

  // ---------------------------------------------------------------------
  // Steps keep every ledger at its total.

  /** The ledgers hold what they held, but for those the exchange is now in and was not: these count it. */
  ghost predicate CountsOnce(g: Gateway, t: Gateway, e: Exchange, next: Exchange, book: Book)
    requires book.IsLedger()
  {
    && (In(e, book) ==> In(next, book))
    && next.reported == e.reported && next.success == e.success
    && Held(t, book) == if In(next, book) && !In(e, book) then U.Counted(Held(g, book), e.reported, e.success) else Held(g, book)
  }

  lemma CountingKeepsTotal(g: Gateway, t: Gateway, id: nat, next: Exchange, book: Book)
    requires id < |g.exchanges| && book.IsLedger() && Kept(g, book)
    requires t.exchanges == g.exchanges[id := next] && CountsOnce(g, t, g.exchanges[id], next, book)
    ensures Kept(t, book)
  {
    var e := g.exchanges[id];
    if In(next, book) && !In(e, book) {
      NewPart(g.exchanges, id, next, book);
      CountedIsWorth(Total(g.exchanges, book), e.reported, e.success);
    } else {
      SamePart(g.exchanges, id, next, book);
    }
  }

  /** What a run's record counts an outcome as, its ledger counts the response as. */
  lemma OutcomesCount(used: Tallies, reported: Option<Usage>, success: bool, usageFree: bool)
    ensures Shown(Tallied(used, A.EndedOutcome(reported, success, usageFree)))
            == if usageFree then Shown(used) else U.Counted(Shown(used), reported, success)
    ensures Shown(Tallied(used, A.AbandonedOutcome(success, usageFree)))
            == if usageFree then Shown(used) else U.Counted(Shown(used), None, success)
  {
  }

  lemma HeldAfterSettling(g: Gateway, e: Exchange, outcome: Outcome, book: Book)
    requires RecordsAgree(g) && book.IsLedger()
    ensures Held(Settled(g, e, outcome), book) ==
            if book.OfRecord? && NumberOf(g, e) == Some(book.number) then Shown(Tallied(g.records[book.number], outcome))
            else Held(g, book)
  {
    if NumberOf(g, e).Some? {
      assert HasRecord(g, e.caller.key);
    }
  }

  /** What the ledgers hold depends on the broker's counts and the records alone. */
  lemma HeldElsewhere(g: Gateway, t: Gateway, book: Book)
    requires book.IsLedger() && t.broker == g.broker && t.records == g.records
    ensures Held(t, book) == Held(g, book)
  {
  }

  lemma PostingToRunCounts(g: Gateway, price: S.Price, id: nat, now: nat, book: Book)
    requires id < |g.exchanges| && g.exchanges[id].stage == AtRun
    requires RecordsAgree(g) && Sound(g.exchanges[id]) && book.IsLedger()
    ensures var e := g.exchanges[id]; CountsOnce(g, Posted(g, price, id, now), e, PostedAs(e, IsListed(g, e), NumberOf(g, e)), book)
  {
    var e := g.exchanges[id];
    var outcome := A.EndedOutcome(e.reported, e.success, e.usageFree);
    HeldAfterSettling(g, e, outcome, book);
    HeldElsewhere(Settled(g, e, outcome), Posted(g, price, id, now), book);
    if book.OfRecord? && NumberOf(g, e) == Some(book.number) {
      OutcomesCount(g.records[book.number], e.reported, e.success, e.usageFree);
    }
  }

  lemma PostingToCountsCounts(g: Gateway, price: S.Price, id: nat, now: nat, book: Book)
    requires id < |g.exchanges| && (g.exchanges[id].stage == AtProvider || g.exchanges[id].stage == AtCounts)
    requires Sound(g.exchanges[id]) && book.IsLedger()
    ensures var e := g.exchanges[id]; CountsOnce(g, Posted(g, price, id, now), e, PostedAs(e, IsListed(g, e), NumberOf(g, e)), book)
  {
  }

  /** Spend is no ledger of counts. */
  lemma PostingToSpendCounts(g: Gateway, price: S.Price, id: nat, now: nat, book: Book)
    requires id < |g.exchanges| && g.exchanges[id].stage == AtSpend
    requires Sound(g.exchanges[id]) && book.IsLedger()
    ensures var e := g.exchanges[id]; CountsOnce(g, Posted(g, price, id, now), e, PostedAs(e, IsListed(g, e), NumberOf(g, e)), book)
  {
  }

  lemma PostingKeeps(g: Gateway, price: S.Price, id: nat, now: nat, book: Book)
    requires Enabled(g, Post(id, now)) && RecordsAgree(g) && AllSound(g) && book.IsLedger() && Kept(g, book)
    ensures Kept(Posted(g, price, id, now), book)
  {
    var e := g.exchanges[id];
    match e.stage {
      case AtRun => PostingToRunCounts(g, price, id, now, book);
      case AtSpend => PostingToSpendCounts(g, price, id, now, book);
      case _ => PostingToCountsCounts(g, price, id, now, book);
    }
    CountingKeepsTotal(g, Posted(g, price, id, now), id, PostedAs(e, IsListed(g, e), NumberOf(g, e)), book);
  }

  lemma AbandoningKeeps(g: Gateway, id: nat, book: Book)
    requires Enabled(g, Abandon(id)) && RecordsAgree(g) && AllSound(g) && book.IsLedger() && Kept(g, book)
    ensures Kept(Abandoned(g, id), book)
  {
    AbandoningCounts(g, id, book);
    CountingKeepsTotal(g, Abandoned(g, id), id, AbandonedAs(g.exchanges[id], NumberOf(g, g.exchanges[id])), book);
  }

  lemma AbandoningCounts(g: Gateway, id: nat, book: Book)
    requires Enabled(g, Abandon(id)) && RecordsAgree(g) && Sound(g.exchanges[id]) && book.IsLedger()
    ensures var e := g.exchanges[id]; CountsOnce(g, Abandoned(g, id), e, AbandonedAs(e, NumberOf(g, e)), book)
  {
    var e := g.exchanges[id];
    var outcome := A.AbandonedOutcome(e.success, e.usageFree);
    HeldAfterSettling(g, e, outcome, book);
    HeldElsewhere(Settled(g, e, outcome), Abandoned(g, id), book);
    if book.OfRecord? && NumberOf(g, e) == Some(book.number) {
      OutcomesCount(g.records[book.number], e.reported, e.success, e.usageFree);
    }
  }

  /** An exchange that is open is in no ledger yet. */
  lemma OpenExchangesKeep(g: Gateway, id: nat, next: Exchange, book: Book)
    requires id < |g.exchanges| && g.exchanges[id].stage == Open && Sound(g.exchanges[id]) && Sound(next)
    requires next.stage == Open || next.stage == AtProvider
    requires book.IsLedger() && Kept(g, book)
    ensures Kept(With(g, id, next), book)
  {
    SamePart(g.exchanges, id, next, book);
    HeldElsewhere(g, With(g, id, next), book);
  }

  /** An exchange that is new is in no ledger, and one that is refused is none. */
  lemma RequestAddsOpen(g: Gateway, mode: Mode, provider: Option<U.Provider>, usageFree: bool, sender: Sender, book: Book)
    requires book.IsLedger()
    ensures var t := Requested(g, mode, provider, usageFree, sender);
            && t.broker == g.broker && t.records == g.records
            && (t.exchanges == g.exchanges ||
                (|t.exchanges| == |g.exchanges| + 1 && t.exchanges == g.exchanges + [t.exchanges[|g.exchanges|]] &&
                 !In(t.exchanges[|g.exchanges|], book) &&
                 t.exchanges[|g.exchanges|].record.None? && !t.exchanges[|g.exchanges|].inOperator))
  {
  }

  lemma AddingKeeps(g: Gateway, t: Gateway, e: Exchange, book: Book)
    requires book.IsLedger() && Kept(g, book) && !In(e, book)
    requires t.broker == g.broker && t.records == g.records && t.exchanges == g.exchanges + [e]
    ensures Kept(t, book)
  {
    HeldElsewhere(g, t, book);
    TotalOfMore(g.exchanges, e, book);
    AndZero(Total(g.exchanges, book));
  }

  lemma RequestingKeeps(g: Gateway, mode: Mode, provider: Option<U.Provider>, usageFree: bool, sender: Sender, book: Book)
    requires book.IsLedger() && Kept(g, book)
    ensures Kept(Requested(g, mode, provider, usageFree, sender), book)
  {
    var t := Requested(g, mode, provider, usageFree, sender);
    RequestAddsOpen(g, mode, provider, usageFree, sender, book);
    if |t.exchanges| > |g.exchanges| {
      AddingKeeps(g, t, t.exchanges[|g.exchanges|], book);
    } else {
      HeldElsewhere(g, t, book);
    }
  }

  /** A new record holds nothing yet. */
  lemma CallingHolds(g: Gateway, e: R.Event, book: Book)
    requires book.IsLedger()
    ensures var t := Called(g, e); t.exchanges == g.exchanges && Held(t, book) == Held(g, book)
  {
  }

  /** An operator newly listed holds nothing yet. */
  lemma DeclaringHolds(g: Gateway, operator: string, consumer: R.Consumer, book: Book)
    requires book.IsLedger()
    ensures Held(g.(broker := U.Declared(g.broker, operator, consumer)), book) == Held(g, book)
  {
  }

  lemma MeteringHolds(g: Gateway, now: nat, book: Book)
    requires book.IsLedger()
    ensures Held(g.(broker := U.Metering(g.broker, now)), book) == Held(g, book)
  {
  }

  lemma SameKeeps(g: Gateway, t: Gateway, book: Book)
    requires book.IsLedger() && Kept(g, book) && t.exchanges == g.exchanges && Held(t, book) == Held(g, book)
    ensures Kept(t, book)
  {
  }

  lemma StepKeepsTotal(g: Gateway, price: S.Price, step: Step, book: Book)
    requires RecordsAgree(g) && AllSound(g) && Enabled(g, step) && book.IsLedger() && Kept(g, book)
    ensures Kept(Take(g, price, step), book)
  {
    match step {
      case Request(mode, cluster, usageFree, sender) =>
        RequestingKeeps(g, mode, ProviderOf(mode, cluster, usageFree), usageFree, sender, book);
      case Respond(id, success) => OpenExchangesKeep(g, id, g.exchanges[id].(success := success), book);
      case End(id, reported) => OpenExchangesKeep(g, id, g.exchanges[id].(stage := AtProvider, reported := reported), book);
      case Post(id, now) => PostingKeeps(g, price, id, now, book);
      case Abandon(id) => AbandoningKeeps(g, id, book);
      case Call(e) =>
        CallingHolds(g, e, book);
        SameKeeps(g, Called(g, e), book);
      case Declare(operator, consumer) =>
        var t := g.(broker := U.Declared(g.broker, operator, consumer));
        DeclaringHolds(g, operator, consumer, book);
        SameKeeps(g, t, book);
        SameKeeps(t, Take(g, price, step), book);
      case Meter(now) =>
        var t := g.(broker := U.Metering(g.broker, now));
        MeteringHolds(g, now, book);
        SameKeeps(g, t, book);
        SameKeeps(t, Take(g, price, step), book);
    }
  }

  // ---------------------------------------------------------------------
  // Exchanges are only in ledgers that are kept.

  predicate InKept(e: Exchange, operators: set<string>, records: nat) {
    && (e.inOperator && e.caller.ByOperator? ==> e.caller.name in operators)
    && (e.record.Some? ==> e.record.value < records)
  }

  ghost predicate AllInKept(g: Gateway) {
    forall i :: 0 <= i < |g.exchanges| ==> InKept(g.exchanges[i], g.broker.operators.Keys, |g.records|)
  }

  /** Ledgers are never closed. */
  predicate StaysOpen(g: Gateway, t: Gateway) {
    g.broker.operators.Keys <= t.broker.operators.Keys && |g.records| <= |t.records|
  }

  lemma PostingInStays(b: U.Broker, price: S.Price, e: Exchange, now: nat)
    ensures PostedIn(b, price, e, now).operators.Keys == b.operators.Keys
  {
  }

  lemma SettlingStays(g: Gateway, e: Exchange, outcome: Outcome)
    ensures Settled(g, e, outcome).broker == g.broker && |Settled(g, e, outcome).records| == |g.records|
  {
  }

  lemma PostingStays(g: Gateway, price: S.Price, id: nat, now: nat)
    requires id < |g.exchanges|
    ensures StaysOpen(g, Posted(g, price, id, now))
  {
    var e := g.exchanges[id];
    PostingInStays(g.broker, price, e, now);
    SettlingStays(g, e, A.EndedOutcome(e.reported, e.success, e.usageFree));
  }

  lemma DeclaringStays(b: U.Broker, operator: string, consumer: R.Consumer)
    ensures b.operators.Keys <= U.Declared(b, operator, consumer).operators.Keys
  {
  }

  lemma LedgersStay(g: Gateway, price: S.Price, step: Step)
    requires Enabled(g, step)
    ensures StaysOpen(g, Take(g, price, step))
  {
    match step {
      case Post(id, now) => PostingStays(g, price, id, now);
      case Abandon(id) =>
        var e := g.exchanges[id];
        SettlingStays(g, e, A.AbandonedOutcome(e.success, e.usageFree));
      case Request(mode, cluster, usageFree, sender) =>
        RequestAddsOpen(g, mode, ProviderOf(mode, cluster, usageFree), usageFree, sender, UnprovenRuns);
      case Declare(operator, consumer) => DeclaringStays(g.broker, operator, consumer);
      case _ =>
    }
  }

  lemma TouchedIsInKept(g: Gateway, e: Exchange)
    requires InKept(e, g.broker.operators.Keys, |g.records|)
    ensures InKept(PostedAs(e, IsListed(g, e), NumberOf(g, e)), g.broker.operators.Keys, |g.records|)
    ensures InKept(AbandonedAs(e, NumberOf(g, e)), g.broker.operators.Keys, |g.records|)
  {
  }

  lemma MoreAreKept(e: Exchange, g: Gateway, t: Gateway)
    requires InKept(e, g.broker.operators.Keys, |g.records|)
    requires g.broker.operators.Keys <= t.broker.operators.Keys && |g.records| <= |t.records|
    ensures InKept(e, t.broker.operators.Keys, |t.records|)
  {
  }

  lemma PostChangesOne(g: Gateway, price: S.Price, id: nat, now: nat)
    requires id < |g.exchanges|
    ensures var e := g.exchanges[id];
            Posted(g, price, id, now).exchanges == g.exchanges[id := PostedAs(e, IsListed(g, e), NumberOf(g, e))]
  {
  }

  lemma AbandonChangesOne(g: Gateway, id: nat)
    requires id < |g.exchanges|
    ensures var e := g.exchanges[id]; Abandoned(g, id).exchanges == g.exchanges[id := AbandonedAs(e, NumberOf(g, e))]
  {
  }

  /** A step touches an exchange in one of these ways, or leaves it. */
  predicate TouchedAs(g: Gateway, e: Exchange, next: Exchange) {
    || (next.record == e.record && next.inOperator == e.inOperator && next.caller == e.caller)
    || next == PostedAs(e, IsListed(g, e), NumberOf(g, e))
    || next == AbandonedAs(e, NumberOf(g, e))
  }

  lemma ExchangeAfter(g: Gateway, price: S.Price, step: Step, i: nat)
    requires Enabled(g, step) && i < |Take(g, price, step).exchanges|
    ensures var next := Take(g, price, step).exchanges[i];
            if i >= |g.exchanges| then next.record.None? && !next.inOperator else TouchedAs(g, g.exchanges[i], next)
  {
    match step {
      case Post(id, now) => PostChangesOne(g, price, id, now);
      case Abandon(id) => AbandonChangesOne(g, id);
      case Request(mode, cluster, usageFree, sender) =>
        RequestAddsOpen(g, mode, ProviderOf(mode, cluster, usageFree), usageFree, sender, UnprovenRuns);
      case _ =>
    }
  }

  lemma StepKeepsInKept(g: Gateway, price: S.Price, step: Step)
    requires AllInKept(g) && Enabled(g, step)
    ensures AllInKept(Take(g, price, step))
  {
    var t := Take(g, price, step);
    LedgersStay(g, price, step);
    forall i | 0 <= i < |t.exchanges|
      ensures InKept(t.exchanges[i], t.broker.operators.Keys, |t.records|)
    {
      ExchangeAfter(g, price, step, i);
      if i < |g.exchanges| {
        TouchedIsInKept(g, g.exchanges[i]);
        MoreAreKept(t.exchanges[i], g, t);
      }
    }
  }

  // ---------------------------------------------------------------------
  // Whole runs.

  ghost predicate Inv(g: Gateway) {
    RecordsAgree(g) && AllSound(g) && AllInKept(g) && AllKept(g)
  }

  lemma StepKeepsInv(g: Gateway, price: S.Price, step: Step)
    requires Inv(g) && Enabled(g, step)
    ensures Inv(Take(g, price, step))
  {
    StepKeepsRecords(g, price, step);
    StepKeepsSound(g, price, step);
    StepKeepsInKept(g, price, step);
    forall book: Book | book.IsLedger()
      ensures Kept(Take(g, price, step), book)
    {
      StepKeepsTotal(g, price, step, book);
    }
  }

  /**
   After any steps, every ledger holds the exact total of the responses posted
   to it, each counter clipped once, and the ledger of each remembered run is
   its record.
   */
  lemma {:induction false} EveryLedgerIsItsTotal(price: S.Price, steps: seq<Step>)
    ensures Inv(After(price, steps))
  {
    if steps != [] {
      var before, last := After(price, steps[..|steps| - 1]), steps[|steps| - 1];
      EveryLedgerIsItsTotal(price, steps[..|steps| - 1]);
      if Enabled(before, last) {
        StepKeepsInv(before, price, last);
      }
    }
  }

  // ---------------------------------------------------------------------
  // Which ledgers a response is in.

  /** A run's record counts a response exactly if the run is remembered then, and so for an operator listed. */
  lemma CountedIfKept(price: S.Price, steps: seq<Step>, id: nat, now: nat)
    requires var g := After(price, steps); Enabled(g, Post(id, now)) && Counts(g.exchanges[id])
    ensures var g := After(price, steps);
            var e, next := g.exchanges[id], Posted(g, price, id, now).exchanges[id];
            && (e.stage == AtRun && e.caller.ByRun? ==> (next.record.Some? <==> e.caller.key in g.registry.runs))
            && (e.stage == AtCounts && e.caller.ByOperator? ==> (next.inOperator <==> e.caller.name in g.broker.operators))
  {
    EveryLedgerIsItsTotal(price, steps);
    var g := After(price, steps);
    if g.exchanges[id].caller.ByRun? && g.exchanges[id].caller.key in g.registry.runs {
      assert HasRecord(g, g.exchanges[id].caller.key);
    }
  }

  // ---------------------------------------------------------------------
  // The ledgers agree.

  /** No response is being posted. */
  ghost predicate Quiet(g: Gateway) {
    forall i :: 0 <= i < |g.exchanges| ==> Settles(g.exchanges[i])
  }

  predicate Settles(e: Exchange) {
    e.stage == Open || e.stage == Closed
  }

  /** Of three books that share nothing, an exchange has a part in one at most. */
  lemma OneOfThree(a: bool, b: bool, c: bool, worth: Tally)
    requires OneAtMost(a, b, c)
    ensures Share(a, worth).And(Share(b, worth)).And(Share(c, worth)) == Share(a || b || c, worth)
  {
  }

  lemma OneOfTwo(a: bool, b: bool, worth: Tally)
    requires !(a && b)
    ensures Share(a, worth).And(Share(b, worth)) == Share(a || b, worth)
  {
  }

  /** Each response is counted as often on the one side as on the other. */
  lemma BothSidesOfOne(e: Exchange, operators: set<string>, records: nat)
    requires Sound(e) && Settles(e) && InKept(e, operators, records)
    ensures Part(e, AnyProvider).And(Part(e, OffCluster)).And(Part(e, Dropped))
            == Part(e, FirstRecords(records)).And(Part(e, Operators(operators))).And(Part(e, Unbooked))
  {
    SameSides(e, operators, records);
    SameShares(In(e, AnyProvider), In(e, OffCluster), In(e, Dropped),
               In(e, FirstRecords(records)), In(e, Operators(operators)), In(e, Unbooked), Worth(e.reported, e.success));
  }

  lemma SameShares(a: bool, b: bool, c: bool, x: bool, y: bool, z: bool, worth: Tally)
    requires OneAtMost(a, b, c) && OneAtMost(x, y, z) && (a || b || c <==> x || y || z)
    ensures Share(a, worth).And(Share(b, worth)).And(Share(c, worth)) == Share(x, worth).And(Share(y, worth)).And(Share(z, worth))
  {
    OneOfThree(a, b, c, worth);
    OneOfThree(x, y, z, worth);
  }

  lemma SameSides(e: Exchange, operators: set<string>, records: nat)
    requires Sound(e) && Settles(e) && InKept(e, operators, records)
    ensures OneAtMost(In(e, AnyProvider), In(e, OffCluster), In(e, Dropped))
    ensures OneAtMost(In(e, FirstRecords(records)), In(e, Operators(operators)), In(e, Unbooked))
    ensures In(e, AnyProvider) || In(e, OffCluster) || In(e, Dropped)
            <==> In(e, FirstRecords(records)) || In(e, Operators(operators)) || In(e, Unbooked)
  {
  }

  predicate OneAtMost(a: bool, b: bool, c: bool) {
    !(a && b) && !(a && c) && !(b && c)
  }

  function ProviderSide(es: seq<Exchange>): Tally {
    Total(es, AnyProvider).And(Total(es, OffCluster)).And(Total(es, Dropped))
  }

  function CallerSide(es: seq<Exchange>, operators: set<string>, records: nat): Tally {
    Total(es, FirstRecords(records)).And(Total(es, Operators(operators))).And(Total(es, Unbooked))
  }

  lemma Regrouped(a: Tally, b: Tally, c: Tally, x: Tally, y: Tally, z: Tally)
    ensures a.And(x).And(b.And(y)).And(c.And(z)) == a.And(b).And(c).And(x.And(y).And(z))
  {
  }

  lemma {:induction false} BothSides(es: seq<Exchange>, operators: set<string>, records: nat)
    requires forall i :: 0 <= i < |es| ==> Sound(es[i]) && Settles(es[i]) && InKept(es[i], operators, records)
    ensures ProviderSide(es) == CallerSide(es, operators, records)
  {
    if es != [] {
      var rest, e := es[..|es| - 1], es[|es| - 1];
      BothSides(rest, operators, records);
      BothSidesOfOne(e, operators, records);
      Regrouped(Total(rest, AnyProvider), Total(rest, OffCluster), Total(rest, Dropped),
                Part(e, AnyProvider), Part(e, OffCluster), Part(e, Dropped));
      Regrouped(Total(rest, FirstRecords(records)), Total(rest, Operators(operators)), Total(rest, Unbooked),
                Part(e, FirstRecords(records)), Part(e, Operators(operators)), Part(e, Unbooked));
    }
  }

  // The totals of a kind are the sums of its ledgers'.

  lemma InThree(total: Tally, a: Tally, b: Tally, c: Tally, part: Tally, x: Tally, y: Tally, z: Tally)
    requires total == a.And(b).And(c) && part == x.And(y).And(z)
    ensures total.And(part) == a.And(x).And(b.And(y)).And(c.And(z))
  {
  }

  lemma {:induction false} ThreeProviders(es: seq<Exchange>)
    requires forall i :: 0 <= i < |es| ==> Sound(es[i])
    ensures Total(es, AnyProvider) == Total(es, Provided(U.Anthropic)).And(Total(es, Provided(U.Codex))).And(Total(es, Provided(U.Mistral)))
  {
    if es != [] {
      ThreeProviders(es[..|es| - 1]);
      OneMoreProvided(es);
    }
  }

  lemma OneMoreProvided(es: seq<Exchange>)
    requires es != [] && Sound(es[|es| - 1])
    requires var rest := es[..|es| - 1];
             Total(rest, AnyProvider) ==
             Total(rest, Provided(U.Anthropic)).And(Total(rest, Provided(U.Codex))).And(Total(rest, Provided(U.Mistral)))
    ensures Total(es, AnyProvider) == Total(es, Provided(U.Anthropic)).And(Total(es, Provided(U.Codex))).And(Total(es, Provided(U.Mistral)))
  {
    var rest, e := es[..|es| - 1], es[|es| - 1];
    OneProvider(e);
    InThree(Total(rest, AnyProvider),
            Total(rest, Provided(U.Anthropic)), Total(rest, Provided(U.Codex)), Total(rest, Provided(U.Mistral)),
            Part(e, AnyProvider), Part(e, Provided(U.Anthropic)), Part(e, Provided(U.Codex)), Part(e, Provided(U.Mistral)));
  }

  lemma OneProvider(e: Exchange)
    requires Sound(e)
    ensures Part(e, AnyProvider) == Part(e, Provided(U.Anthropic)).And(Part(e, Provided(U.Codex))).And(Part(e, Provided(U.Mistral)))
  {
    OneOfThree(In(e, Provided(U.Anthropic)), In(e, Provided(U.Codex)), In(e, Provided(U.Mistral)), Worth(e.reported, e.success));
    match e.provider {
      case Some(Anthropic) =>
      case Some(Codex) =>
      case Some(Mistral) =>
      case None =>
    }
  }

  lemma {:induction false} NoneIn(es: seq<Exchange>, book: Book)
    requires forall i :: 0 <= i < |es| ==> !In(es[i], book)
    ensures Total(es, book) == Zero()
  {
    if es != [] {
      NoneIn(es[..|es| - 1], book);
    }
  }

  predicate MadeOf(e: Exchange, whole: Book, a: Book, b: Book) {
    (In(e, whole) <==> In(e, a) || In(e, b)) && !(In(e, a) && In(e, b))
  }

  lemma OneMadeOf(e: Exchange, whole: Book, a: Book, b: Book)
    requires MadeOf(e, whole, a, b)
    ensures Part(e, whole) == Part(e, a).And(Part(e, b))
  {
    OneOfTwo(In(e, a), In(e, b), Worth(e.reported, e.success));
  }

  lemma PairsRegrouped(a: Tally, b: Tally, x: Tally, y: Tally)
    ensures a.And(b).And(x.And(y)) == a.And(x).And(b.And(y))
  {
  }

  /** A book that two others make up, and share nothing. */
  lemma {:induction false} TwoBooks(es: seq<Exchange>, whole: Book, a: Book, b: Book)
    requires forall i :: 0 <= i < |es| ==> MadeOf(es[i], whole, a, b)
    ensures Total(es, whole) == Total(es, a).And(Total(es, b))
  {
    if es != [] {
      var rest, e := es[..|es| - 1], es[|es| - 1];
      TwoBooks(rest, whole, a, b);
      OneMadeOf(e, whole, a, b);
      PairsRegrouped(Total(rest, a), Total(rest, b), Part(e, a), Part(e, b));
    }
  }

  /** All the counters, none of which has reached its limit. */
  predicate Unlimited(c: U.Counts) {
    && c.requests < U64_MAX && c.unmetered < U64_MAX && c.tokens.input < U64_MAX && c.tokens.cacheRead < U64_MAX
    && c.tokens.output < U64_MAX && c.tokens.reasoning < U64_MAX && c.tokens.total < U64_MAX
  }

  function Plain(c: U.Counts): Tally {
    Tally(c.requests, c.unmetered, c.tokens.input, c.tokens.cacheRead, c.tokens.output, c.tokens.reasoning, c.tokens.total)
  }

  lemma UnlimitedIsExact(t: Tally)
    requires Unlimited(ClipTally(t))
    ensures Plain(ClipTally(t)) == t
  {
  }

  /** The sum of the first `count` records there ever were. */
  function SumRecords(records: seq<Tallies>): Tally {
    if records == [] then Zero() else SumRecords(records[..|records| - 1]).And(Plain(Shown(records[|records| - 1])))
  }

  /** The sum of the operators' counts, in any order. */
  function SumOperators(operators: map<string, U.Counts>, order: seq<string>): Tally
    requires U.SetOf(order) <= operators.Keys
  {
    if order == [] then Zero()
    else
      assert U.SetOf(order[..|order| - 1]) <= U.SetOf(order);
      SumOperators(operators, order[..|order| - 1]).And(Plain(operators[order[|order| - 1]]))
  }

  /** None of the ledgers has reached a limit. */
  ghost predicate NoneLimited(g: Gateway) {
    forall book: Book :: book.IsLedger() ==> Unlimited(Held(g, book))
  }

  lemma {:induction false} RecordsSumUp(g: Gateway, count: nat)
    requires AllKept(g) && NoneLimited(g) && count <= |g.records|
    ensures SumRecords(g.records[..count]) == Total(g.exchanges, FirstRecords(count))
  {
    if count == 0 {
      NoneIn(g.exchanges, FirstRecords(0));
    } else {
      assert g.records[..count][..count - 1] == g.records[..count - 1];
      RecordsSumUp(g, count - 1);
      TwoBooks(g.exchanges, FirstRecords(count), FirstRecords(count - 1), OfRecord(count - 1));
      RecordIsExact(g, count - 1);
    }
  }

  lemma RecordIsExact(g: Gateway, number: nat)
    requires AllKept(g) && NoneLimited(g) && number < |g.records|
    ensures Plain(Shown(g.records[number])) == Total(g.exchanges, OfRecord(number))
  {
    assert Kept(g, OfRecord(number));
    assert Unlimited(Held(g, OfRecord(number)));
    UnlimitedIsExact(Total(g.exchanges, OfRecord(number)));
  }

  lemma {:induction false} OperatorsSumUp(g: Gateway, order: seq<string>)
    requires AllKept(g) && NoneLimited(g) && U.Distinct(order) && U.SetOf(order) <= g.broker.operators.Keys
    ensures SumOperators(g.broker.operators, order) == Total(g.exchanges, Operators(U.SetOf(order)))
  {
    if order == [] {
      NoneIn(g.exchanges, Operators(U.SetOf(order)));
    } else {
      var rest, name := order[..|order| - 1], order[|order| - 1];
      U.WithoutLast(order);
      OperatorsSumUp(g, rest);
      TwoBooks(g.exchanges, Operators(U.SetOf(order)), Operators(U.SetOf(rest)), Listed(name));
      assert Kept(g, Listed(name));
      assert Unlimited(Held(g, Listed(name)));
      UnlimitedIsExact(Total(g.exchanges, Listed(name)));
    }
  }

  function SumProviders(b: U.Broker): Tally {
    Plain(b.anthropic).And(Plain(b.codex)).And(Plain(b.mistral))
  }

  lemma ProvidersSumUp(g: Gateway)
    requires AllKept(g) && NoneLimited(g) && AllSound(g)
    ensures SumProviders(g.broker) == Total(g.exchanges, AnyProvider)
  {
    ThreeProviders(g.exchanges);
    ProviderIsExact(g, U.Anthropic);
    ProviderIsExact(g, U.Codex);
    ProviderIsExact(g, U.Mistral);
  }

  lemma ProviderIsExact(g: Gateway, provider: U.Provider)
    requires AllKept(g) && NoneLimited(g)
    ensures Plain(Held(g, Provided(provider))) == Total(g.exchanges, Provided(provider))
  {
    assert Kept(g, Provided(provider));
    assert Unlimited(Held(g, Provided(provider)));
    UnlimitedIsExact(Total(g.exchanges, Provided(provider)));
  }

  function Callers(g: Gateway, order: seq<string>): Tally
    requires U.SetOf(order) <= g.broker.operators.Keys
  {
    SumRecords(g.records).And(SumOperators(g.broker.operators, order))
  }

  /**
   What the providers and the callers were used for, once each side is given
   what it has no ledger for: responses off the providers' clusters, and
   successful ones the runs abandoned; responses of runs forgotten, and of
   operators unlisted, when they were posted.
   */
  ghost predicate Balanced(g: Gateway, providers: Tally, callers: Tally) {
    providers.And(Total(g.exchanges, OffCluster)).And(Total(g.exchanges, Dropped)) == callers.And(Total(g.exchanges, Unbooked))
  }

  /**
   Whatever the steps, when no response is being posted and no counter is at
   its limit, the providers' counts balance with every record a run ever had
   and the operators' counts.
   */
  lemma LedgersBalance(price: S.Price, steps: seq<Step>, order: seq<string>)
    requires var g := After(price, steps);
             Quiet(g) && NoneLimited(g) && U.Distinct(order) && U.SetOf(order) == g.broker.operators.Keys
    ensures var g := After(price, steps); Balanced(g, SumProviders(g.broker), Callers(g, order))
  {
    var g := After(price, steps);
    EveryLedgerIsItsTotal(price, steps);
    ProvidersSumUp(g);
    RecordsSumUp(g, |g.records|);
    assert g.records[..|g.records|] == g.records;
    OperatorsSumUp(g, order);
    forall i | 0 <= i < |g.exchanges|
      ensures Sound(g.exchanges[i]) && Settles(g.exchanges[i]) && InKept(g.exchanges[i], g.broker.operators.Keys, |g.records|)
    {
    }
    BothSides(g.exchanges, g.broker.operators.Keys, |g.records|);
  }

  predicate OnlyUnmetered(t: Tally) {
    t.requests == 0 && t.input == 0 && t.cacheRead == 0 && t.output == 0 && t.reasoning == 0 && t.total == 0
  }

  lemma BothOnlyUnmetered(a: Tally, b: Tally)
    requires OnlyUnmetered(a) && OnlyUnmetered(b)
    ensures OnlyUnmetered(a.And(b))
  {
  }

  lemma DroppedIsUnmetered(e: Exchange)
    requires Sound(e)
    ensures OnlyUnmetered(Part(e, Dropped))
  {
  }

  lemma {:induction false} DroppedAreUnmetered(es: seq<Exchange>)
    requires forall i :: 0 <= i < |es| ==> Sound(es[i])
    ensures OnlyUnmetered(Total(es, Dropped))
  {
    if es != [] {
      DroppedAreUnmetered(es[..|es| - 1]);
      DroppedIsUnmetered(es[|es| - 1]);
      BothOnlyUnmetered(Total(es[..|es| - 1], Dropped), Part(es[|es| - 1], Dropped));
    }
  }

  /** Every response that counts is on one of the three clusters, of a run remembered, or an operator listed, when it was posted. */
  ghost predicate AllHaveLedgers(g: Gateway) {
    forall i :: 0 <= i < |g.exchanges| ==> !In(g.exchanges[i], OffCluster) && !In(g.exchanges[i], Unbooked)
  }

  /** The callers' tally is the providers', and so many more unmetered responses. */
  predicate SameButUnmetered(callers: Tally, providers: Tally, more: nat) {
    callers == providers.(unmetered := providers.unmetered + more)
  }

  lemma WithoutZeros(providers: Tally, dropped: Tally, callers: Tally)
    requires providers.And(Zero()).And(dropped) == callers.And(Zero()) && OnlyUnmetered(dropped)
    ensures SameButUnmetered(callers, providers, dropped.unmetered)
  {
  }

  lemma NothingMissing(g: Gateway, providers: Tally, callers: Tally)
    requires AllSound(g) && AllHaveLedgers(g) && Balanced(g, providers, callers)
    ensures SameButUnmetered(callers, providers, Total(g.exchanges, Dropped).unmetered)
  {
    DroppedAreUnmetered(g.exchanges);
    NoneIn(g.exchanges, OffCluster);
    NoneIn(g.exchanges, Unbooked);
    WithoutZeros(providers, Total(g.exchanges, Dropped), callers);
  }

  /**
   When every response has a ledger on both sides, the providers' requests and
   tokens are those of the runs and the operators, and the callers' unmetered
   responses are the providers' and the successful ones abandoned.
   */
  lemma ProvidersAndCallersAgree(price: S.Price, steps: seq<Step>, order: seq<string>)
    requires var g := After(price, steps);
             Quiet(g) && NoneLimited(g) && AllHaveLedgers(g) && U.Distinct(order) && U.SetOf(order) == g.broker.operators.Keys
    ensures var g := After(price, steps);
            SameButUnmetered(Callers(g, order), SumProviders(g.broker), Total(g.exchanges, Dropped).unmetered)
  {
    var g := After(price, steps);
    LedgersBalance(price, steps, order);
    EveryLedgerIsItsTotal(price, steps);
    NothingMissing(g, SumProviders(g.broker), Callers(g, order));
  }
}
