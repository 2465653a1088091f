/**
 The filter's part in a request's life, as it changes the request's context
 and the ledgers in place (filter.rs). Each method is proved to take the steps
 of module `Ledgers`, one after the other.
 */
module FilterImplementation {
  import opened Wrappers
  import opened Numbers
  import opened Records
  import opened Subjects
  import opened Ledgers
  import LedgersAgree
  import A = Admissions
  import R = Registry
  import U = Usages
  import S = Spending
  import W = WindowState
  import O = OperatorSlots
  import RunsImplementation
  import UsageImplementation
  import WindowsImplementation
  import OperatorImplementation

  // ---------------------------------------------------------------------
  // What a response reported.

  /** What the token counter recorded for a response; a value that is no number is not there. */
  datatype Metadata = Metadata(
    status: Option<string>, input: Option<u64>, output: Option<u64>, cacheRead: Option<u64>,
    reasoning: Option<u64>, total: Option<u64>, cacheWrite: Option<u64>, model: Option<string>)

  function OrZero(n: Option<u64>): u64 {
    if n.Some? then n.value else 0
  }

  /**
   Input read from the cache is told apart from the rest of the input, never
   counted in both, and the total is at least the parts'.
   */
  function ReportedUsage(m: Metadata): (usage: Option<Usage>)
    ensures usage.Some? <==> m.status.None? && m.input.Some? && m.output.Some?
    ensures usage.Some? ==>
              var t := usage.value.tokens;
              && t.input + t.cacheRead == m.input.value && t.output == m.output.value
              && t.cacheRead <= OrZero(m.cacheRead)
              && (t.input > 0 ==> t.cacheRead == OrZero(m.cacheRead))
              && t.total >= SatAdd(SatAdd(t.input, t.cacheRead), t.output) && t.total >= OrZero(m.total)
              && (t.total == OrZero(m.total) || t.total == SatAdd(m.input.value, m.output.value))
              && t.reasoning == OrZero(m.reasoning)
              && usage.value.cacheWrite == OrZero(m.cacheWrite) && usage.value.model == m.model
  {
    if m.status.Some? || m.input.None? || m.output.None? then None
    else
      var input, output, cacheRead := m.input.value, m.output.value, Min(OrZero(m.cacheRead), m.input.value);
      Some(Usage(
             Tokens(input - cacheRead, cacheRead, output, OrZero(m.reasoning), Max(OrZero(m.total), SatAdd(input, output))),
             m.model, OrZero(m.cacheWrite)))
  }

  // ---------------------------------------------------------------------
  // The context of a request.

  datatype Holder =
    | Run(admission: A.Admitted)
    /** A slot of the operator's. */
    | Slot(operator: OperatorImplementation.Operator, usageFree: bool)

  /** What a request was admitted as, for its usage once the response ends. */
  class Metered {
    const provider: Option<U.Provider>
    const caller: Option<Holder>
    var success: bool

    constructor (provider: Option<U.Provider>, caller: Option<Holder>)
      ensures this.provider == provider && this.caller == caller && !success
    {
      this.provider, this.caller, success := provider, caller, false;
    }

    ghost function Parts(): set<object> {
      {this} + if caller.Some? && caller.value.Run? then {caller.value.admission} else {}
    }

    /** The operator whose slot it holds. */
    ghost function Holds(): set<object> {
      if caller.Some? && caller.value.Slot? then {caller.value.operator} else {}
    }

    /** The response is still to be settled, in the registry `runs`, and its run's admission knows what it knows. */
    ghost predicate Valid(runs: RunsImplementation.Runs)
      reads Parts()
    {
      && (provider.Some? ==> caller.Some? && !View().usageFree)
      && (caller.Some? && caller.value.Run? ==>
            var admission := caller.value.admission;
            admission.runs == runs && !admission.settled && admission.success == success)
    }

    /** The exchange it stands for, while its response has not ended. */
    ghost function View(): Exchange
      reads Parts()
    {
      match caller
      case None => Opened(provider, Nobody, false).(success := success)
      case Some(Run(admission)) =>
        Opened(provider, ByRun(admission.key, admission.consumer), admission.usageFree).(success := success)
      case Some(Slot(operator, usageFree)) =>
        Opened(provider, ByOperator(operator.name, operator.consumer), usageFree).(success := success)
    }
  }

  /** Who a request with a token is from: an operator, which answers it, or else a run if any. */
  datatype Bearer =
    | RunToken(token: R.Token)
    | OperatorToken(name: string, consumer: R.Consumer, answer: O.Answer)

  datatype Denial = InternalError | Unauthenticated | Forbidden | Busy

  /** What upstream's response says: its status, and its headers on each provider's windows. */
  datatype Response = Response(
    success: bool, fiveHour: W.AnthropicHeaders, sevenDay: W.AnthropicHeaders, primary: W.CodexHeaders, secondary: W.CodexHeaders)

  function HeadersFor(r: Response, provider: U.Provider): W.Headers {
    match provider
    case Anthropic => W.Anthropic(r.fiveHour, r.sevenDay)
    case Codex => W.Codex(r.primary, r.secondary)
    case Mistral => W.Mistral
  }

  /** A run is authenticated by its token and then admitted, in two steps of the registry. */
  function Entered(s: R.State, token: R.Token, now: nat): (R.State, Result<(RunKey, R.Consumer), Denial>) {
    var (found, who) := R.Step(s, R.DoAuthenticate(token, now));
    match who.key
    case None => (found, Err(Unauthenticated))
    case Some(key) =>
      var (admitted, answer) := R.Step(found, R.DoAdmit(key, now));
      match answer.admitted
      case Ok(consumer) => (admitted, Ok((key, consumer)))
      case Err(Closed) => (admitted, Err(Unauthenticated))
      case Err(Busy) => (admitted, Err(Busy))
  }

  /** The registry and the exchange, or the denial, once a request for `cluster` is let in. */
  function Arrived(s: R.State, mode: Mode, cluster: string, usageFree: bool, bearer: Option<Bearer>, now: nat)
    : (R.State, Result<Exchange, Denial>)
  {
    var provider := ProviderOf(mode, cluster, usageFree);
    if mode == PassThrough then (s, Ok(Opened(provider, Nobody, false)))
    else
      match bearer
      case None => (s, Err(Unauthenticated))
      case Some(OperatorToken(name, consumer, Admitted)) => (s, Ok(Opened(provider, ByOperator(name, consumer), usageFree)))
      case Some(OperatorToken(_, _, Forbidden)) => (s, Err(Forbidden))
      case Some(OperatorToken(_, _, _)) => (s, Err(Busy))
      case Some(RunToken(token)) =>
        match Entered(s, token, now)
        case (t, Err(denial)) => (t, Err(denial))
        case (t, Ok((key, consumer))) => (t, Ok(Opened(provider, ByRun(key, consumer), usageFree)))
  }

  /** The counts and the spend once a response that has ended is settled. */
  function SettledBroker(b: U.Broker, price: S.Price, e: Exchange, now: nat): U.Broker {
    var provided := PostedIn(b, price, e.(stage := AtProvider), now);
    var counted := PostedIn(provided, price, e.(stage := AtCounts), now);
    PostedIn(counted, price, e.(stage := AtSpend), now)
  }

  /** It is put to the provider's counts, to those of the runs without proof or the operator's, and to the spend. */
  lemma SettledInTurn(b: U.Broker, price: S.Price, e: Exchange, now: nat)
    ensures var provided := if e.provider.Some? then U.SettledProvider(b, e.provider.value, e.reported, e.success) else b;
            var counted :=
              if !Counts(e) then provided
              else
                match e.caller
                case ByOperator(name, _) => U.SettledOperator(provided, name, e.reported, e.success)
                case ByRun(Unproven(_), _) => U.SettledUnproven(provided, e.reported, e.success)
                case _ => provided;
            SettledBroker(b, price, e, now) ==
            if Counts(e) then U.SettledSpend(counted, price, PayerOf(e), e.reported, e.success, now) else counted
  {
  }

  function SettledRegistry(s: R.State, e: Exchange): R.State {
    if e.caller.ByRun? then R.Settle(s, e.caller.key, A.EndedOutcome(e.reported, e.success, e.usageFree)) else s
  }

  class Filter {
    const runs: RunsImplementation.Runs
    const usage: UsageImplementation.BrokerUsage
    const windows: WindowsImplementation.Windows
    const operators: map<R.Token, OperatorImplementation.Operator>
    /** Whose credential each cluster's route sends upstream. */
    const credentials: map<string, Mode>
    const usageFreePaths: set<string>
    const publicPaths: set<string>

    constructor (runs: RunsImplementation.Runs, usage: UsageImplementation.BrokerUsage, windows: WindowsImplementation.Windows,
                 operators: map<R.Token, OperatorImplementation.Operator>, credentials: map<string, Mode>,
                 usageFreePaths: set<string>, publicPaths: set<string>)
      ensures this.runs == runs && this.usage == usage && this.windows == windows && this.operators == operators
      ensures this.credentials == credentials && this.usageFreePaths == usageFreePaths && this.publicPaths == publicPaths
    {
      this.runs, this.usage, this.windows, this.operators := runs, usage, windows, operators;
      this.credentials, this.usageFreePaths, this.publicPaths := credentials, usageFreePaths, publicPaths;
    }

    ghost function Counters(): set<object> {
      operators.Values
    }

    /** An operator's token is looked up before any run's. */
    ghost function BearerOf(token: Option<R.Token>, cluster: string): Option<Bearer>
      reads Counters()
    {
      if token.None? then None
      else if token.value !in operators then Some(RunToken(token.value))
      else
        var operator := operators[token.value];
        Some(OperatorToken(operator.name, operator.consumer, OperatorImplementation.Admits(operator.View(map[]), cluster)))
    }

    /** The slots that the token's operator gives the request: one if it admits it, and no other operator any. */
    twostate predicate GivesSlots(token: Option<R.Token>, cluster: string, asked: bool)
      reads Counters()
    {
      forall operator <- operators.Values ::
        operator.inFlight == old(operator.inFlight) +
                             if asked && token.Some? && token.value in operators && operators[token.value] == operator &&
                                old(OperatorImplementation.Admits(operator.View(map[]), cluster)) == O.Admitted
                             then 1 else 0
    }

    method AdmitRun(token: R.Token, now: nat) returns (result: Result<A.Admitted, Denial>)
      modifies runs
      ensures runs.View() == Entered(old(runs.View()), token, now).0
      ensures match (result, Entered(old(runs.View()), token, now).1)
              case (Ok(admission), Ok((key, consumer))) =>
                && fresh(admission) && admission.runs == runs && admission.key == key && admission.consumer == consumer
                && !admission.success && !admission.settled && !admission.usageFree
              case (Err(denial), Err(expected)) => denial == expected
              case _ => false
    {
      var key := runs.Authenticate(token, now);
      if key.None? {
        return Err(Unauthenticated);
      }
      var admitted := runs.Admit(key.value, now);
      match admitted {
        case Ok(consumer) =>
          var admission := new A.Admitted(runs, key.value, consumer);
          result := Ok(admission);
        case Err(Closed) =>
          result := Err(Unauthenticated);
        case Err(Busy) =>
          result := Err(Busy);
      }
    }

    /**
     Pass the request on, metered unless its path is public, or deny it. Only
     one that uses the broker's credential is put down to anybody, and only
     one that may use tokens to a provider.
     */
    method OnRequest(path: string, cluster: Option<string>, token: Option<R.Token>, now: nat)
      returns (result: Result<Option<Metered>, Denial>)
      requires forall operator <- operators.Values :: operator.inFlight < U64_MAX
      modifies runs, Counters()
      ensures path in publicPaths ==> result == Ok(None) && runs.View() == old(runs.View()) && GivesSlots(token, "", false)
      ensures path !in publicPaths && (cluster.None? || cluster.value !in credentials) ==>
                result == Err(InternalError) && runs.View() == old(runs.View()) && GivesSlots(token, "", false)
      ensures path !in publicPaths && cluster.Some? && cluster.value in credentials ==>
                var mode, usageFree := credentials[cluster.value], path in usageFreePaths;
                var (t, arrived) := Arrived(old(runs.View()), mode, cluster.value, usageFree, old(BearerOf(token, cluster.value)), now);
                && runs.View() == t
                && GivesSlots(token, cluster.value, mode == Injected)
                && match (result, arrived)
                   case (Ok(Some(metered)), Ok(e)) =>
                     fresh(metered.Parts()) && metered.Valid(runs) && metered.View() == e
                   case (Err(denial), Err(expected)) => denial == expected
                   case _ => false
    {
      var usageFree := path in usageFreePaths;
      if path in publicPaths {
        return Ok(None);
      }
      if cluster.None? || cluster.value !in credentials {
        return Err(InternalError);
      }
      var mode := credentials[cluster.value];
      var caller: Option<Holder> := None;
      if mode == Injected {
        var admitted := AdmitCaller(cluster.value, usageFree, token, now);
        if admitted.Err? {
          return Err(admitted.error);
        }
        caller := Some(admitted.value);
      }
      var provider := None;
      if mode == Injected && !usageFree {
        provider := ForCluster(cluster.value);
      }
      var metered := new Metered(provider, caller);
      result := Ok(Some(metered));
    }

    /** A request with the broker's credential is admitted for the operator or the run its token is of. */
    method AdmitCaller(cluster: string, usageFree: bool, token: Option<R.Token>, now: nat) returns (result: Result<Holder, Denial>)
      requires forall operator <- operators.Values :: operator.inFlight < U64_MAX
      modifies runs, Counters()
      ensures GivesSlots(token, cluster, true)
      ensures match old(BearerOf(token, cluster))
              case None => result == Err(Unauthenticated) && runs.View() == old(runs.View())
              case Some(OperatorToken(name, consumer, answer)) =>
                && runs.View() == old(runs.View())
                && (answer == O.Forbidden ==> result == Err(Forbidden))
                && (answer == O.Busy ==> result == Err(Busy))
                && (answer == O.Admitted ==>
                      result.Ok? && result.value.Slot? && result.value.usageFree == usageFree &&
                      result.value.operator.name == name && result.value.operator.consumer == consumer)
              case Some(RunToken(token)) =>
                && runs.View() == Entered(old(runs.View()), token, now).0
                && match (result, Entered(old(runs.View()), token, now).1)
                   case (Ok(Run(admission)), Ok((key, consumer))) =>
                     && fresh(admission) && admission.runs == runs && admission.key == key && admission.consumer == consumer
                     && !admission.success && !admission.settled && admission.usageFree == usageFree
                   case (Err(denial), Err(expected)) => denial == expected
                   case _ => false
    {
      if token.None? {
        return Err(Unauthenticated);
      }
      if token.value in operators {
        var operator := operators[token.value];
        var answer := operator.Admit(cluster);
        match answer {
          case Admitted => return Ok(Slot(operator, usageFree));
          case Forbidden => return Err(Forbidden);
          case _ => return Err(Busy);
        }
      }
      var admitted := AdmitRun(token.value, now);
      if admitted.Err? {
        return Err(admitted.error);
      }
      admitted.value.usageFree := usageFree;
      result := Ok(Run(admitted.value));
    }

    /**
     Upstream's status is taken down where the settlement will look for it, and
     what the response says of its provider's windows is captured for whoever
     it is for.
     */
    method OnResponse(metered: Metered, response: Option<Response>, now: u64) returns (changed: bool)
      requires metered.Valid(runs)
      modifies metered.Parts(), windows
      ensures metered.Valid(runs)
      ensures metered.View() == old(metered.View()).(success := response.Some? && response.value.success)
      ensures if metered.provider.Some? && response.Some?
              then
                var headers := HeadersFor(response.value, metered.provider.value);
                && windows.View() == W.Captured(old(windows.View()), headers, metered.View().caller.consumer, now)
                && changed == W.Changes(headers, now)
              else windows.View() == old(windows.View()) && !changed
    {
      var success := response.Some? && response.value.success;
      metered.success := success;
      if metered.caller.Some? && metered.caller.value.Run? {
        metered.caller.value.admission.success := success;
      }
      changed := false;
      if metered.provider.Some? && response.Some? {
        var consumer := match metered.caller.value case Run(admission) => admission.consumer case Slot(operator, _) => operator.consumer;
        changed := windows.Capture(HeadersFor(response.value, metered.provider.value), consumer, now);
      }
    }

    /** The response has ended: it is posted to every ledger it belongs in, and its run's slot given back. */
    method OnResponseBody(metered: Metered, metadata: Metadata, price: S.Price, now: nat)
      requires metered.Valid(runs)
      modifies metered.Parts(), metered.Holds(), runs, usage
      ensures metered.caller.Some? && metered.caller.value.Slot? ==>
                metered.caller.value.operator.inFlight == O.FetchSub(old(metered.caller.value.operator.inFlight))
      ensures var e := old(metered.View()).(reported := ReportedUsage(metadata));
              && usage.View() == SettledBroker(old(usage.View()), price, e, now)
              && runs.View() == SettledRegistry(old(runs.View()), e)
    {
      var reported, success := ReportedUsage(metadata), metered.success;
      SettledInTurn(usage.View(), price, metered.View().(reported := reported), now);
      if metered.provider.Some? {
        usage.Settle(metered.provider.value, reported, success);
      }
      match metered.caller {
        case Some(Run(admission)) =>
          if !admission.usageFree {
            if admission.key.Unproven? {
              usage.SettleUnproven(reported, success);
            }
            usage.SettleSpend(price, U.Payer(None, admission.consumer, metered.provider), reported, success, now);
          }
          admission.Settle(reported);
        case Some(Slot(operator, usageFree)) =>
          if !usageFree {
            usage.SettleOperator(operator.name, reported, success);
            usage.SettleSpend(price, U.Payer(Some(operator.name), operator.consumer, metered.provider), reported, success, now);
          }
          operator.Release();
        case None =>
      }
    }

    /** The request is dropped before its response ends. */
    method Abandon(metered: Metered)
      requires metered.Valid(runs)
      modifies runs, metered.Holds()
      ensures metered.caller.Some? && metered.caller.value.Slot? ==>
                metered.caller.value.operator.inFlight == O.FetchSub(old(metered.caller.value.operator.inFlight))
      ensures var e := metered.View();
              runs.View() == if e.caller.ByRun?
                             then R.Settle(old(runs.View()), e.caller.key, A.AbandonedOutcome(e.success, e.usageFree))
                             else old(runs.View())
    {
      if metered.caller.Some? {
        match metered.caller.value {
          case Run(admission) => admission.Drop();
          case Slot(operator, _) => operator.Release();
        }
      }
    }
  }

  // ---------------------------------------------------------------------
  // The methods and the steps.

  /** A run's request arrives by two steps: its token is looked up, and then it asks to be admitted. */
  lemma ArrivingIsRequesting(g: Gateway, cluster: string, usageFree: bool, token: R.Token, now: nat)
    ensures var (t, arrived) := Arrived(g.registry, Injected, cluster, usageFree, Some(RunToken(token)), now);
            var found := Called(g, R.DoAuthenticate(token, now));
            match R.Step(g.registry, R.DoAuthenticate(token, now)).1.key
            case None => arrived == Err(Unauthenticated) && t == found.registry
            case Some(key) =>
              var next := Requested(found, Injected, ProviderOf(Injected, cluster, usageFree), usageFree, OfRun(key, now));
              && t == next.registry
              && next.exchanges == g.exchanges +
                 if arrived.Ok? then [arrived.value.(admitted := NumberOf(next, arrived.value))] else []
  {
  }

  /** What posting goes by is the same in both. */
  predicate SamePosting(a: Exchange, b: Exchange) {
    && a.provider == b.provider && a.caller == b.caller && a.usageFree == b.usageFree
    && a.success == b.success && a.reported == b.reported
  }

  /** `t` is `g` with an exchange like `e` posted to the ledger at `stage`. */
  ghost predicate PostedOne(g: Gateway, t: Gateway, price: S.Price, id: nat, now: nat, stage: Stage, e: Exchange) {
    && id < |t.exchanges| && SamePosting(t.exchanges[id], e) && t.exchanges[id].stage == stage.Next()
    && t.broker == (if stage == AtRun then g.broker else PostedIn(g.broker, price, e.(stage := stage), now))
    && t.registry == (if stage == AtRun then SettledRegistry(g.registry, e) else g.registry)
  }

  lemma PostsElsewhere(g: Gateway, price: S.Price, id: nat, now: nat, e: Exchange)
    requires id < |g.exchanges| && SamePosting(g.exchanges[id], e) && g.exchanges[id].stage != AtRun
    ensures PostedOne(g, Posted(g, price, id, now), price, id, now, g.exchanges[id].stage, e)
  {
    PostingSeesSame(g.broker, price, g.exchanges[id], e, now);
    StaysSame(g.exchanges[id], IsListed(g, g.exchanges[id]), NumberOf(g, g.exchanges[id]));
    GoesOn(g.exchanges[id], IsListed(g, g.exchanges[id]), NumberOf(g, g.exchanges[id]));
    LedgersAgree.PostChangesOne(g, price, id, now);
  }

  lemma PostingSeesSame(b: U.Broker, price: S.Price, a: Exchange, e: Exchange, now: nat)
    requires SamePosting(a, e)
    ensures PostedIn(b, price, a, now) == PostedIn(b, price, e.(stage := a.stage), now)
  {
  }

  lemma StaysSameAtProvider(a: Exchange, listed: bool, number: Option<nat>)
    requires a.stage == AtProvider
    ensures SamePosting(PostedAs(a, listed, number), a)
  {
  }

  lemma StaysSameAtCounts(a: Exchange, listed: bool, number: Option<nat>)
    requires a.stage == AtCounts
    ensures SamePosting(PostedAs(a, listed, number), a)
  {
  }

  lemma StaysSameLater(a: Exchange, listed: bool, number: Option<nat>)
    requires a.stage != AtProvider && a.stage != AtCounts
    ensures SamePosting(PostedAs(a, listed, number), a)
  {
  }

  lemma StaysSame(a: Exchange, listed: bool, number: Option<nat>)
    ensures SamePosting(PostedAs(a, listed, number), a)
  {
    match a.stage {
      case AtProvider => StaysSameAtProvider(a, listed, number);
      case AtCounts => StaysSameAtCounts(a, listed, number);
      case _ => StaysSameLater(a, listed, number);
    }
  }

  lemma GoesOn(a: Exchange, listed: bool, number: Option<nat>)
    ensures PostedAs(a, listed, number).stage == a.stage.Next()
  {
  }

  lemma PostsToRun(g: Gateway, price: S.Price, id: nat, now: nat, e: Exchange)
    requires id < |g.exchanges| && SamePosting(g.exchanges[id], e) && g.exchanges[id].stage == AtRun
    ensures PostedOne(g, Posted(g, price, id, now), price, id, now, AtRun, e)
  {
  }

  lemma InTurn(g: Gateway, one: Gateway, two: Gateway, three: Gateway, four: Gateway, price: S.Price, id: nat, now: nat, e: Exchange)
    requires PostedOne(g, one, price, id, now, AtProvider, e) && PostedOne(one, two, price, id, now, AtCounts, e)
    requires PostedOne(two, three, price, id, now, AtSpend, e) && PostedOne(three, four, price, id, now, AtRun, e)
    ensures four.broker == SettledBroker(g.broker, price, e, now) && four.registry == SettledRegistry(g.registry, e)
    ensures four.exchanges[id].stage == Closed
  {
  }

  function FourPosts(g: Gateway, price: S.Price, id: nat, now: nat): Gateway
    requires id < |g.exchanges|
  {
    var three := Posted(Posted(Posted(g, price, id, now), price, id, now), price, id, now);
    Posted(three, price, id, now)
  }

  lemma FourPostsSettle(g: Gateway, price: S.Price, id: nat, now: nat, e: Exchange)
    requires id < |g.exchanges| && g.exchanges[id].stage == AtProvider && SamePosting(g.exchanges[id], e)
    ensures var t := FourPosts(g, price, id, now);
            && t.broker == SettledBroker(g.broker, price, e, now)
            && t.registry == SettledRegistry(g.registry, e)
            && t.exchanges[id].stage == Closed
  {
    var one := Posted(g, price, id, now);
    PostsElsewhere(g, price, id, now, e);
    var two := Posted(one, price, id, now);
    PostsElsewhere(one, price, id, now, e);
    var three := Posted(two, price, id, now);
    PostsElsewhere(two, price, id, now, e);
    PostsToRun(three, price, id, now, e);
    InTurn(g, one, two, three, Posted(three, price, id, now), price, id, now, e);
  }

  /**
   With nothing in between, the steps that end and post an exchange leave the
   broker and the registry as the method does.
   */
  lemma SettlingIsPosting(g: Gateway, price: S.Price, id: nat, reported: Option<Usage>, now: nat)
    requires Enabled(g, End(id, reported))
    ensures var e := g.exchanges[id].(reported := reported);
            var t := FourPosts(Take(g, price, End(id, reported)), price, id, now);
            && t.broker == SettledBroker(g.broker, price, e, now)
            && t.registry == SettledRegistry(g.registry, e)
            && t.exchanges[id].stage == Closed
  {
    FourPostsSettle(Take(g, price, End(id, reported)), price, id, now, g.exchanges[id].(reported := reported));
  }
}
