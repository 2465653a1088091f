/**
 What a response is counted as, over all the ledgers that count it (filter.rs).

 A response that ends is posted, one lock at a time, to its provider's counts,
 to those of the runs without proof or of its operator, to the week's spend,
 and to its run's record; other responses are posted in between. The lemmas
 say what each ledger then holds in terms of the responses, and that the
 ledgers agree: what the providers were used for is what the runs and the
 operators used.
 */
module Ledgers {
  import opened Wrappers
  import opened Numbers
  import opened Records
  import opened Subjects

  import A = Admissions
  import R = Registry
  import U = Usages
  import S = Spending

  datatype Mode = Injected | PassThrough

  function ForCluster(cluster: string): Option<U.Provider> {
    if cluster == "anthropic" then Some(U.Anthropic)
    else if cluster == "inference-backend" then Some(U.Codex)
    else if cluster == "mistral" then Some(U.Mistral)
    else None
  }

  function ProviderOf(mode: Mode, cluster: string, usageFree: bool): Option<U.Provider> {
    if mode == Injected && !usageFree then ForCluster(cluster) else None
  }

  /** Whose request it is; nobody's when it is passed through. */
  datatype Caller =
    | Nobody
    | ByRun(key: RunKey, consumer: R.Consumer)
    | ByOperator(name: string, consumer: R.Consumer)

  /** Where a response is: `Open` until it ends, then at the ledger it is to be posted to next. */
  datatype Stage = Open | AtProvider | AtCounts | AtSpend | AtRun | Closed {
    function Rank(): nat {
      match this
      case Open => 0
      case AtProvider => 1
      case AtCounts => 2
      case AtSpend => 3
      case AtRun => 4
      case Closed => 5
    }

    function Next(): Stage {
      match this
      case AtProvider => AtCounts
      case AtCounts => AtSpend
      case AtSpend => AtRun
      case _ => Closed
    }
  }

  /**
   A request and its response. The fields after `reported` say which ledgers
   it is in: `record` is the number of its run's record there, and `admitted`
   of the one its run had when the request was admitted.
   */
  datatype Exchange = Exchange(
    provider: Option<U.Provider>, caller: Caller, usageFree: bool, success: bool, stage: Stage, abandoned: bool,
    reported: Option<Usage>, inProvider: bool, inUnproven: bool, inOperator: bool, record: Option<nat>,
    admitted: Option<nat>)

  function Opened(provider: Option<U.Provider>, caller: Caller, usageFree: bool): Exchange {
    Exchange(provider, caller, usageFree, false, Open, false, None, false, false, false, None, None)
  }

  /** Its use counts: it used the broker's credential, and may have used tokens. */
  predicate Counts(e: Exchange) {
    !e.caller.Nobody? && !e.usageFree
  }

  function PayerOf(e: Exchange): U.Payer
    requires !e.caller.Nobody?
  {
    U.Payer(if e.caller.ByOperator? then Some(e.caller.name) else None, e.caller.consumer, e.provider)
  }

  /**
   The gateway's ledgers, and the history of it all: `records` has every
   record a run ever had, as it last was, `keyOf` the key of the run it was
   given to, `recordOf` the number of each key's latest, and `spending` what the week's spend was told.
   */
  datatype Gateway = Gateway(
    registry: R.State, broker: U.Broker, exchanges: seq<Exchange>,
    records: seq<Tallies>, keyOf: seq<RunKey>, recordOf: map<RunKey, nat>, spending: seq<S.Event>)

  const START := Gateway(R.EMPTY, U.UNUSED, [], [], [], map[], [])

  // ---------------------------------------------------------------------
  // Steps, each of which holds one lock.

  datatype Sender =
    | OfRun(key: RunKey, now: nat)
    /** The operator has given the request a slot. */
    | OfOperator(name: string, consumer: R.Consumer)

  datatype Step =
    /** A step of the registry that is neither an admission nor a settlement. */
    | Call(e: R.Event)
    | Meter(now: nat)
    | Declare(operator: string, consumer: R.Consumer)
    | Request(mode: Mode, cluster: string, usageFree: bool, sender: Sender)
    | Respond(id: nat, success: bool)
    | End(id: nat, reported: Option<Usage>)
    | Post(id: nat, now: nat)
    | Abandon(id: nat)

  predicate Enabled(g: Gateway, step: Step) {
    match step
    case Call(e) => !e.DoAdmit? && !e.DoSettle?
    case Meter(_) => true
    case Declare(_, _) => true
    case Request(_, _, _, _) => true
    case Respond(id, _) => id < |g.exchanges| && g.exchanges[id].stage == Open
    case End(id, _) => id < |g.exchanges| && g.exchanges[id].stage == Open
    case Post(id, _) => id < |g.exchanges| && !g.exchanges[id].stage.Open? && !g.exchanges[id].stage.Closed?
    case Abandon(id) => id < |g.exchanges| && g.exchanges[id].stage == Open
  }

  function Take(g: Gateway, price: S.Price, step: Step): Gateway
    requires Enabled(g, step)
  {
    match step
    case Call(e) => Called(g, e)
    case Meter(now) => g.(broker := U.Metering(g.broker, now), spending := g.spending + [S.Meter(now)])
    case Declare(operator, consumer) =>
      g.(broker := U.Declared(g.broker, operator, consumer), spending := g.spending + [S.Declare(operator, consumer)])
    case Request(mode, cluster, usageFree, sender) => Requested(g, mode, ProviderOf(mode, cluster, usageFree), usageFree, sender)
    case Respond(id, success) => With(g, id, g.exchanges[id].(success := success))
    case End(id, reported) => With(g, id, g.exchanges[id].(stage := AtProvider, reported := reported))
    case Post(id, now) => Posted(g, price, id, now)
    case Abandon(id) => Abandoned(g, id)
  }

  function With(g: Gateway, id: nat, e: Exchange): Gateway
    requires id < |g.exchanges|
  {
    g.(exchanges := g.exchanges[id := e])
  }

  function KeyMinted(e: R.Event): RunKey
    requires e.Mints()
  {
    if e.DoRegister? then R.KeyOf(e.id) else Unproven(e.name)
  }

  /** The step gives the run of the key it registers a new record. */
  predicate GivesRecord(s: R.State, e: R.Event) {
    e.Mints() && KeyMinted(e) !in R.Seen(s, e).runs && KeyMinted(e) in R.Step(s, e).0.runs
  }

  function Called(g: Gateway, e: R.Event): Gateway {
    var called := g.(registry := R.Step(g.registry, e).0);
    if GivesRecord(g.registry, e)
    then called.(records := g.records + [NOTHING_USED], keyOf := g.keyOf + [KeyMinted(e)],
                 recordOf := g.recordOf[KeyMinted(e) := |g.records|])
    else called
  }

  function Requested(g: Gateway, mode: Mode, provider: Option<U.Provider>, usageFree: bool, sender: Sender): Gateway {
    if mode == PassThrough then
      g.(exchanges := g.exchanges + [Opened(None, Nobody, false)])
    else
      match sender
      case OfOperator(name, consumer) =>
        g.(exchanges := g.exchanges + [Opened(provider, ByOperator(name, consumer), usageFree)])
      case OfRun(key, now) =>
        var (t, answer) := R.Step(g.registry, R.DoAdmit(key, now));
        match answer.admitted
        case Ok(consumer) =>
          var e := Opened(provider, ByRun(key, consumer), usageFree);
          g.(registry := t, exchanges := g.exchanges + [e.(admitted := NumberOf(g.(registry := t), e))])
        case Err(_) => g.(registry := t)
  }

  /** The number of the record of the exchange's run, while the run is remembered. */
  function NumberOf(g: Gateway, e: Exchange): Option<nat> {
    if e.caller.ByRun? && e.caller.key in g.registry.runs && e.caller.key in g.recordOf && g.recordOf[e.caller.key] < |g.records|
    then Some(g.recordOf[e.caller.key])
    else None
  }

  /** The admission of the exchange gives back its slot, and its run's record counts the outcome. */
  function Settled(g: Gateway, e: Exchange, outcome: Outcome): Gateway {
    if !e.caller.ByRun? then g
    else
      var settled := g.(registry := R.Settle(g.registry, e.caller.key, outcome));
      match NumberOf(g, e)
      case None => settled
      case Some(number) => settled.(records := g.records[number := settled.registry.runs[e.caller.key].record.used])
  }

  /** The counts and the spend once the exchange is posted to the ledger it is at. */
  function PostedIn(b: U.Broker, price: S.Price, e: Exchange, now: nat): U.Broker {
    match e.stage
    case AtProvider => if e.provider.Some? then U.SettledProvider(b, e.provider.value, e.reported, e.success) else b
    case AtCounts =>
      if !Counts(e) then b
      else if e.caller.ByOperator? then U.SettledOperator(b, e.caller.name, e.reported, e.success)
      else if e.caller.key.Unproven? then U.SettledUnproven(b, e.reported, e.success)
      else b
    case AtSpend => if Counts(e) then U.SettledSpend(b, price, PayerOf(e), e.reported, e.success, now) else b
    case _ => b
  }

  /** The exchange once it is posted, if its operator is `listed` and its run's record has the `number`. */
  function PostedAs(e: Exchange, listed: bool, number: Option<nat>): Exchange {
    var next := e.(stage := e.stage.Next());
    match e.stage
    case AtProvider => next.(inProvider := e.provider.Some?)
    case AtCounts =>
      next.(inUnproven := Counts(e) && e.caller.ByRun? && e.caller.key.Unproven?,
            inOperator := Counts(e) && e.caller.ByOperator? && listed)
    case AtRun => next.(record := if Counts(e) then number else None)
    case _ => next
  }

  predicate IsListed(g: Gateway, e: Exchange) {
    e.caller.ByOperator? && e.caller.name in g.broker.operators
  }

  function Told(spending: seq<S.Event>, e: Exchange, now: nat): seq<S.Event> {
    if e.stage == AtSpend && Counts(e) then spending + [S.Settle(PayerOf(e), e.reported, e.success, now)] else spending
  }

  /** The exchange is posted to the ledger it is at, if it belongs there. */
  function Posted(g: Gateway, price: S.Price, id: nat, now: nat): (t: Gateway)
    requires id < |g.exchanges|
    ensures |t.exchanges| == |g.exchanges|
  {
    var e := g.exchanges[id];
    var posted := g.(broker := PostedIn(g.broker, price, e, now), spending := Told(g.spending, e, now));
    var settled := if e.stage == AtRun then Settled(g, e, A.EndedOutcome(e.reported, e.success, e.usageFree)) else posted;
    With(settled, id, PostedAs(e, IsListed(g, e), NumberOf(g, e)))
  }

  function AbandonedAs(e: Exchange, number: Option<nat>): Exchange {
    e.(stage := Closed, abandoned := true, record := if Counts(e) then number else None)
  }

  /** The response is dropped before it ends: only a run's record hears of it. */
  function Abandoned(g: Gateway, id: nat): Gateway
    requires id < |g.exchanges|
  {
    var e := g.exchanges[id];
    With(Settled(g, e, A.AbandonedOutcome(e.success, e.usageFree)), id, AbandonedAs(e, NumberOf(g, e)))
  }

  /** The state after `steps`; one that is not enabled when its turn comes does nothing. */
  function After(price: S.Price, steps: seq<Step>): Gateway {
    if steps == [] then START
    else
      var before, last := After(price, steps[..|steps| - 1]), steps[|steps| - 1];
      if Enabled(before, last) then Take(before, price, last) else before
  }

  // ---------------------------------------------------------------------
  // What the exchanges come to.

  /** Counts without a limit. */
  datatype Tally = Tally(requests: nat, unmetered: nat, input: nat, cacheRead: nat, output: nat, reasoning: nat, total: nat) {
    function And(other: Tally): Tally {
      Tally(requests + other.requests, unmetered + other.unmetered, input + other.input, cacheRead + other.cacheRead,
            output + other.output, reasoning + other.reasoning, total + other.total)
    }
  }

  function Zero(): Tally {
    Tally(0, 0, 0, 0, 0, 0, 0)
  }

  /** What one response counts as, wherever it counts. */
  function Worth(reported: Option<Usage>, success: bool): Tally {
    match reported
    case Some(Usage(t, _, _)) => Tally(1, 0, t.input, t.cacheRead, t.output, t.reasoning, t.total)
    case None => Tally(0, if success then 1 else 0, 0, 0, 0, 0, 0)
  }

  datatype Book =
    // The ledgers themselves.
    | Provided(provider: U.Provider)
    | UnprovenRuns
    | Listed(name: string)
    | OfRecord(number: nat)
    // All the ledgers of a kind.
    | AnyProvider
    | Operators(names: set<string>)
    | FirstRecords(count: nat)
    // What is missing from the one side or the other.
    | OffCluster
    | Unbooked
    | Dropped
  {
    predicate IsLedger() {
      Provided? || UnprovenRuns? || Listed? || OfRecord?
    }
  }

  predicate Done(e: Exchange) {
    e.stage == Closed && !e.abandoned && Counts(e)
  }

  predicate In(e: Exchange, book: Book) {
    match book
    case Provided(provider) => e.inProvider && e.provider == Some(provider)
    case UnprovenRuns => e.inUnproven
    case Listed(name) => e.inOperator && e.caller.ByOperator? && e.caller.name == name
    case OfRecord(number) => e.record == Some(number)
    case AnyProvider => e.inProvider
    case Operators(names) => e.inOperator && e.caller.ByOperator? && e.caller.name in names
    case FirstRecords(count) => e.record.Some? && e.record.value < count
    case OffCluster => Done(e) && e.provider.None?
    case Unbooked => Done(e) && !e.inOperator && e.record.None?
    case Dropped => e.abandoned && e.record.Some?
  }

  function Share(counts: bool, worth: Tally): Tally {
    if counts then worth else Zero()
  }

  function Part(e: Exchange, book: Book): Tally {
    Share(In(e, book), Worth(e.reported, e.success))
  }

  function Total(es: seq<Exchange>, book: Book): Tally {
    if es == [] then Zero() else Total(es[..|es| - 1], book).And(Part(es[|es| - 1], book))
  }

  function ClipTally(t: Tally): U.Counts {
    U.Counts(Sat(t.requests), Sat(t.unmetered), Tokens(Sat(t.input), Sat(t.cacheRead), Sat(t.output), Sat(t.reasoning), Sat(t.total)))
  }

  lemma TotalOfMore(es: seq<Exchange>, e: Exchange, book: Book)
    ensures Total(es + [e], book) == Total(es, book).And(Part(e, book))
  {
    assert (es + [e])[..|es|] == es;
  }

  /** When one exchange changes, its part in the total does. */
  lemma {:induction false} TotalWith(es: seq<Exchange>, id: nat, e: Exchange, book: Book)
    requires id < |es|
    ensures Total(es[id := e], book).And(Part(es[id], book)) == Total(es, book).And(Part(e, book))
  {
    var n := |es| - 1;
    if id == n {
      assert es[id := e][..n] == es[..n];
      Exchanged(Total(es[..n], book), Part(es[n], book), Part(e, book));
    } else {
      assert es[id := e][..n] == es[..n][id := e];
      TotalWith(es[..n], id, e, book);
      Carried(Total(es[..n][id := e], book), Part(es[id], book), Total(es[..n], book), Part(e, book), Part(es[n], book));
    }
  }

  lemma Exchanged(a: Tally, b: Tally, c: Tally)
    ensures a.And(c).And(b) == a.And(b).And(c)
  {
  }

  lemma Carried(a: Tally, b: Tally, c: Tally, d: Tally, more: Tally)
    requires a.And(b) == c.And(d)
    ensures a.And(more).And(b) == c.And(more).And(d)
  {
  }

  lemma SamePart(es: seq<Exchange>, id: nat, e: Exchange, book: Book)
    requires id < |es| && Part(e, book) == Part(es[id], book)
    ensures Total(es[id := e], book) == Total(es, book)
  {
    TotalWith(es, id, e, book);
    Cancelled(Total(es[id := e], book), Total(es, book), Part(e, book));
  }

  lemma Cancelled(a: Tally, b: Tally, c: Tally)
    requires a.And(c) == b.And(c)
    ensures a == b
  {
  }

  lemma NewPart(es: seq<Exchange>, id: nat, e: Exchange, book: Book)
    requires id < |es| && !In(es[id], book) && In(e, book)
    ensures Total(es[id := e], book) == Total(es, book).And(Worth(e.reported, e.success))
  {
    TotalWith(es, id, e, book);
    AndZero(Total(es[id := e], book));
  }

  lemma AndZero(a: Tally)
    ensures a.And(Zero()) == a
  {
  }

  /** Counting a response in a saturating ledger adds its worth to the exact total. */
  lemma CountedIsWorth(t: Tally, reported: Option<Usage>, success: bool)
    ensures U.Counted(ClipTally(t), reported, success) == ClipTally(t.And(Worth(reported, success)))
  {
  }
}
