/**
 What every run of the registry keeps: the token index agrees with the runs,
 a token that stops working never works again, a run ends once and stays
 ended, and unproven runs cannot crowd out proven ones.
 */
module RegistryInvariants {
  import opened Wrappers
  import opened Numbers
  import opened Records
  import opened Subjects
  import opened Registry

  /** `tokens` and the runs' current tokens are inverse to each other. */
  ghost predicate Indexed(s: State) {
    && (forall k :: k in s.runs ==> s.runs[k].token in s.tokens && s.tokens[s.runs[k].token] == k)
    && (forall t :: t in s.tokens ==> s.tokens[t] in s.runs && s.runs[s.tokens[t]].token == t)
  }

  predicate ProofNames(key: RunKey, proof: Proof) {
    match proof
    case GithubOidc(repository, run, attempt, check, _) => key == Github(repository, run, attempt, check)
    case NoProof(run) => key == Unproven(run)
  }

  predicate RunValid(key: RunKey, run: Run) {
    && ProofNames(key, run.record.proof)
    && (key.Unproven? ==> run.jti == None && run.consumer == Private)
    && (key.Github? ==> run.jti.Some?)
    && run.retainUntil == run.expires + RETENTION
    && (run.record.state == Finished <==> run.record.finishedAt.Some?)
    && run.inFlight <= run.concurrency
  }

  ghost predicate AllValid(runs: map<RunKey, Run>) {
    forall k :: k in runs ==> RunValid(k, runs[k])
  }

  predicate Bounded(runs: map<RunKey, Run>) {
    |runs| <= MAX_RUNS && |UnprovenKeys(runs)| <= MAX_UNPROVEN_RUNS
  }

  ghost predicate Valid(s: State) {
    Indexed(s) && AllValid(s.runs) && Bounded(s.runs)
  }

  lemma SubsetIsSmaller<T>(a: set<T>, b: set<T>)
    requires a <= b
    ensures |a| <= |b|
  {
    assert b == a + (b - a);
  }

  lemma PrunedRun(s: State, now: nat, key: RunKey)
    ensures key in Pruned(s, now).runs <==> key in s.runs && Kept(s.runs[key], now)
    ensures key in Pruned(s, now).runs ==>
              Pruned(s, now).runs[key] == Aged(s.runs[key], now) && Pruned(s, now).runs[key].token == s.runs[key].token
  {
  }

  /** Pruning forgets a token exactly with the run it belongs to. */
  lemma PruningKeepsIndexed(s: State, now: nat)
    requires Indexed(s)
    ensures Indexed(Pruned(s, now))
  {
    var p := Pruned(s, now);
    forall k | k in p.runs
      ensures p.runs[k].token in p.tokens && p.tokens[p.runs[k].token] == k
    {
      PrunedRun(s, now, k);
      assert s.runs[k].token !in ForgottenTokens(s.runs, now);
    }
    forall t | t in p.tokens
      ensures p.tokens[t] in p.runs && p.runs[p.tokens[t]].token == t
    {
      PrunedRun(s, now, s.tokens[t]);
    }
  }

  lemma SizesAfterPruning(s: State, now: nat)
    ensures |Pruned(s, now).runs| <= |s.runs|
    ensures |UnprovenKeys(Pruned(s, now).runs)| <= |UnprovenKeys(s.runs)|
  {
    SubsetIsSmaller(Pruned(s, now).runs.Keys, s.runs.Keys);
    SubsetIsSmaller(UnprovenKeys(Pruned(s, now).runs), UnprovenKeys(s.runs));
  }

  lemma SizeAfterInserting(runs: map<RunKey, Run>, key: RunKey, run: Run)
    requires key !in runs
    ensures |runs[key := run]| == |runs| + 1
  {
    assert runs[key := run].Keys == runs.Keys + {key};
  }

  lemma UnprovenAfterInserting(runs: map<RunKey, Run>, key: RunKey, run: Run)
    requires key !in runs
    ensures UnprovenKeys(runs[key := run]) == UnprovenKeys(runs) + if key.Unproven? then {key} else {}
    ensures key !in UnprovenKeys(runs)
  {
  }

  lemma SizesAfterUpdating(runs: map<RunKey, Run>, key: RunKey, run: Run)
    requires key in runs
    ensures runs[key := run].Keys == runs.Keys
    ensures UnprovenKeys(runs[key := run]) == UnprovenKeys(runs)
  {
  }

  lemma PruningKeepsValid(s: State, now: nat)
    requires Valid(s)
    ensures Valid(Pruned(s, now))
  {
    PruningKeepsIndexed(s, now);
    SizesAfterPruning(s, now);
  }

  lemma InsertingKeepsIndexed(s: State, key: RunKey, run: Run)
    requires Indexed(s) && key !in s.runs && run.token !in s.tokens
    ensures Indexed(Inserted(s, key, run))
  {
  }

  lemma InsertingKeepsValid(s: State, key: RunKey, run: Run)
    requires Valid(s) && key !in s.runs && run.token !in s.tokens && RunValid(key, run)
    requires |s.runs| < MAX_RUNS && (key.Unproven? ==> |UnprovenKeys(s.runs)| < MAX_UNPROVEN_RUNS)
    ensures Valid(Inserted(s, key, run))
  {
    InsertingKeepsIndexed(s, key, run);
    SizeAfterInserting(s.runs, key, run);
    UnprovenAfterInserting(s.runs, key, run);
  }

  lemma UpdatingKeepsValid(s: State, key: RunKey, run: Run)
    requires Valid(s) && key in s.runs && run.token == s.runs[key].token && RunValid(key, run)
    ensures Valid(s.(runs := s.runs[key := run]))
  {
    SizesAfterUpdating(s.runs, key, run);
  }

  lemma ReplacingKeepsIndexed(s: State, key: RunKey, token: Token)
    requires Indexed(s) && key in s.runs && token !in s.tokens
    ensures Indexed(Replaced(s, key, token))
    ensures s.runs[key].token !in Replaced(s, key, token).tokens
  {
  }

  lemma ReplacingKeepsValid(s: State, key: RunKey, token: Token)
    requires Valid(s) && key in s.runs && token !in s.tokens
    ensures Valid(Replaced(s, key, token))
  {
    ReplacingKeepsIndexed(s, key, token);
    SizesAfterUpdating(s.runs, key, s.runs[key].(token := token));
  }

  lemma RegisterKeepsValid(p: State, id: RunIdentity, limits: Limits, token: Token, now: nat, unix: u64)
    requires Valid(p) && token !in p.tokens
    ensures Valid(Register(p, id, limits, token, now, unix).0)
  {
    var key := KeyOf(id);
    if key in p.runs {
      ReplacingKeepsValid(p, key, token);
    } else if |p.runs| < MAX_RUNS {
      InsertingKeepsValid(p, key, NewRun(ProofOf(id), Some(id.jti), id.consumer, token, limits, now, unix));
    }
  }

  /** The invariant says nothing of the quota's queue. */
  lemma QuotaKeepsValid(s: State, unproven: seq<nat>)
    requires Valid(s)
    ensures Valid(s.(unproven := unproven))
  {
  }

  lemma RegisterUnprovenKeepsValid(p: State, name: RunName, limits: Limits, quota: Quota, token: Token, now: nat, unix: u64)
    requires Valid(p) && token !in p.tokens
    ensures Valid(RegisterUnproven(p, name, limits, quota, token, now, unix).0)
  {
    var (t, answer) := RegisterUnproven(p, name, limits, quota, token, now, unix);
    if answer.Ok? {
      var run := NewRun(NoProof(name), None, Private, token, limits, now, unix);
      InsertingKeepsValid(p, Unproven(name), run);
      QuotaKeepsValid(Inserted(p, Unproven(name), run), t.unproven);
    } else {
      QuotaKeepsValid(p, t.unproven);
      assert t == p.(unproven := t.unproven);
    }
  }

  lemma FinishKeepsValid(p: State, key: RunKey, unix: u64)
    requires Valid(p)
    ensures Valid(Finish(p, key, unix).0)
  {
    if key in p.runs {
      UpdatingKeepsValid(p, key, p.runs[key].(record := Ended(p.runs[key].record, unix)));
    }
  }

  lemma AdmitKeepsValid(p: State, key: RunKey)
    requires Valid(p)
    ensures Valid(Admit(p, key).0)
  {
    if Admit(p, key).1.Ok? {
      UpdatingKeepsValid(p, key, p.runs[key].(inFlight := p.runs[key].inFlight + 1));
    }
  }

  lemma SettleKeepsValid(s: State, key: RunKey, outcome: Outcome)
    requires Valid(s)
    ensures Valid(Settle(s, key, outcome))
  {
    if key in s.runs {
      UpdatingKeepsValid(s, key, Settled(s.runs[key], outcome));
    }
  }

  lemma ActKeepsValid(p: State, e: Event)
    requires Valid(p)
    requires e.Mints() ==> e.token !in p.tokens
    ensures Valid(Act(p, e).0)
  {
    match e {
      case DoRegister(id, limits, token, now, unix) => RegisterKeepsValid(p, id, limits, token, now, unix);
      case DoRegisterUnproven(name, limits, quota, token, now, unix) =>
        RegisterUnprovenKeepsValid(p, name, limits, quota, token, now, unix);
      case DoFinish(key, _, unix) => FinishKeepsValid(p, key, unix);
      case DoAdmit(key, _) => AdmitKeepsValid(p, key);
      case DoAuthenticate(_, _) =>
      case DoRecord(_, _) =>
      case DoSettle(key, outcome) => SettleKeepsValid(p, key, outcome);
    }
  }

  /** Every step keeps the invariant, if a step that mints a token mints a new one. */
  lemma StepKeepsValid(s: State, e: Event)
    requires Valid(s)
    requires e.Mints() ==> e.token !in s.tokens
    ensures Valid(Step(s, e).0)
  {
    if e.Timed() {
      PruningKeepsValid(s, e.now);
    }
    ActKeepsValid(Seen(s, e), e);
  }

  // ---------------------------------------------------------------------
  // Tokens.

  function Minted(es: seq<Event>): set<Token> {
    if es == [] then {}
    else
      var last := es[|es| - 1];
      Minted(es[..|es| - 1]) + if last.Mints() then {last.token} else {}
  }

  /** No two steps mint the same token. */
  predicate FreshTokens(es: seq<Event>) {
    es != [] ==>
      var before, last := es[..|es| - 1], es[|es| - 1];
      FreshTokens(before) && (last.Mints() ==> last.token !in Minted(before))
  }

  lemma ActMints(p: State, e: Event, token: Token)
    requires token in Act(p, e).0.tokens
    ensures token in p.tokens || (e.Mints() && token == e.token)
  {
  }

  /** A token appears in the index only when it is minted. */
  lemma StepMints(s: State, e: Event, token: Token)
    requires token in Step(s, e).0.tokens
    ensures token in s.tokens || (e.Mints() && token == e.token)
  {
    ActMints(Seen(s, e), e, token);
  }

  lemma {:induction false} TokensWereMinted(es: seq<Event>, token: Token)
    requires token in Exec(EMPTY, es).tokens
    ensures token in Minted(es)
  {
    if es != [] {
      var before, last := es[..|es| - 1], es[|es| - 1];
      StepMints(Exec(EMPTY, before), last, token);
      if token in Exec(EMPTY, before).tokens {
        TokensWereMinted(before, token);
      }
    }
  }

  /** In every reachable state the index and the runs agree, and both are bounded. */
  lemma {:induction false} EveryReachableStateIsValid(es: seq<Event>)
    requires FreshTokens(es)
    ensures Valid(Exec(EMPTY, es))
  {
    if es != [] {
      var before, last := es[..|es| - 1], es[|es| - 1];
      EveryReachableStateIsValid(before);
      if last.Mints() && last.token in Exec(EMPTY, before).tokens {
        TokensWereMinted(before, last.token);
      }
      StepKeepsValid(Exec(EMPTY, before), last);
    }
  }

  /** A token authenticates a run exactly while it is that run's current token and the run is remembered. */
  lemma OnlyCurrentTokensAuthenticate(es: seq<Event>, token: Token, now: nat, key: RunKey)
    requires FreshTokens(es)
    ensures var s := Exec(EMPTY, es);
            Step(s, DoAuthenticate(token, now)).1 == Who(Some(key))
            <==> key in s.runs && s.runs[key].token == token && now < s.runs[key].retainUntil
  {
    EveryReachableStateIsValid(es);
    PruningKeepsIndexed(Exec(EMPTY, es), now);
    PrunedRun(Exec(EMPTY, es), now, key);
  }

  lemma {:induction false} MintedInTwo(a: seq<Event>, b: seq<Event>)
    ensures Minted(a + b) == Minted(a) + Minted(b)
  {
    if b == [] {
      assert a + b == a;
    } else {
      assert (a + b)[..|a + b| - 1] == a + b[..|b| - 1];
      MintedInTwo(a, b[..|b| - 1]);
    }
  }

  /**
   A token that was minted and no longer authenticates, because its run was
   given another, was forgotten, or never got it, never authenticates again.
   */
  lemma {:induction false} DeadTokensStayDead(past: seq<Event>, later: seq<Event>, token: Token, now: nat)
    requires FreshTokens(past + later)
    requires token in Minted(past) && token !in Exec(EMPTY, past).tokens
    ensures token !in Exec(EMPTY, past + later).tokens
    ensures Step(Exec(EMPTY, past + later), DoAuthenticate(token, now)).1 == Who(None)
  {
    if later == [] {
      assert past + later == past;
    } else {
      var n := |later| - 1;
      assert (past + later)[..|past + later| - 1] == past + later[..n];
      DeadTokensStayDead(past, later[..n], token, now);
      MintedInTwo(past, later[..n]);
      if token in Exec(EMPTY, past + later).tokens {
        StepMints(Exec(EMPTY, past + later[..n]), later[n], token);
      }
    }
  }

  /** A retry that is granted replaces the run's token, and the old one is dead from then on. */
  lemma ReplacedTokensDie(es: seq<Event>, retry: Event)
    requires FreshTokens(es + [retry]) && retry.DoRegister?
    requires var s, key := Exec(EMPTY, es), KeyOf(retry.id);
             key in Pruned(s, retry.now).runs && Step(s, retry).1.result.Ok?
    ensures var s, after, key := Exec(EMPTY, es), Exec(EMPTY, es + [retry]), KeyOf(retry.id);
            && s.runs[key].token in Minted(es + [retry])
            && s.runs[key].token !in after.tokens
            && after.tokens[retry.token] == key
  {
    assert (es + [retry])[..|es + [retry]| - 1] == es;
    EveryReachableStateIsValid(es);
    TokensWereMinted(es, Exec(EMPTY, es).runs[KeyOf(retry.id)].token);
    if retry.token in Exec(EMPTY, es).tokens {
      TokensWereMinted(es, retry.token);
    }
    PruningKeepsValid(Exec(EMPTY, es), retry.now);
    PrunedRun(Exec(EMPTY, es), retry.now, KeyOf(retry.id));
    ReplacingKeepsIndexed(Pruned(Exec(EMPTY, es), retry.now), KeyOf(retry.id), retry.token);
  }

  /** A step that forgets a run leaves its token dead, whatever the step then does. */
  lemma ForgottenTokensDie(es: seq<Event>, e: Event, key: RunKey)
    requires FreshTokens(es + [e]) && e.Timed()
    requires key in Exec(EMPTY, es).runs && !Kept(Exec(EMPTY, es).runs[key], e.now)
    ensures Exec(EMPTY, es).runs[key].token in Minted(es + [e])
    ensures Exec(EMPTY, es).runs[key].token !in Exec(EMPTY, es + [e]).tokens
  {
    var s := Exec(EMPTY, es);
    assert (es + [e])[..|es|] == es;
    EveryReachableStateIsValid(es);
    TokensWereMinted(es, s.runs[key].token);
    assert s.runs[key].token in ForgottenTokens(s.runs, e.now);
    if s.runs[key].token in Exec(EMPTY, es + [e]).tokens {
      ActMints(Pruned(s, e.now), e, s.runs[key].token);
    }
  }

  // ---------------------------------------------------------------------
  // Lifecycle.

  /** A granted retry of the run's registration, by the OIDC token that registered it. */
  predicate Retries(e: Event, key: RunKey, run: Run) {
    e.DoRegister? && KeyOf(e.id) == key && Some(e.id.jti) == run.jti && run.record.state == Active && e.now < run.expires
  }

  /** How one step may change a remembered run. */
  predicate Successor(e: Event, key: RunKey, prior: Run, next: Run) {
    // What it registered with never changes.
    && next.record.proof == prior.record.proof
    && next.record.registeredAt == prior.record.registeredAt
    && next.record.expiresAt == prior.record.expiresAt
    && next.jti == prior.jti && next.consumer == prior.consumer && next.concurrency == prior.concurrency
    && next.expires == prior.expires && next.retainUntil == prior.retainUntil
    // It ends once: by its deadline, or else by a finish before it.
    && (next.record.state, next.record.finishedAt) ==
       (if prior.record.state != Active then (prior.record.state, prior.record.finishedAt)
        else if e.Timed() && e.now >= prior.expires then (Expired, prior.record.finishedAt)
        else if e.DoFinish? && e.key == key then (Finished, Some(e.unix))
        else (Active, prior.record.finishedAt))
    // Only a granted retry changes the token.
    && next.token == (if Retries(e, key, prior) then e.token else prior.token)
    // Only a settlement counts use, and only an admission or a settlement moves a slot.
    && (next.record.used != prior.record.used ==> e.DoSettle? && e.key == key)
    && (next.inFlight != prior.inFlight ==> (e.DoSettle? || e.DoAdmit?) && e.key == key)
    && (next.inFlight > prior.inFlight ==> prior.record.state == Active && next.record.state == Active)
  }

  predicate StillKept(e: Event, run: Run) {
    e.Timed() ==> e.now < run.retainUntil
  }

  /** While a run is remembered, each step changes it only as `Successor` says. */
  lemma StepKeepsRun(s: State, e: Event, key: RunKey)
    requires key in s.runs && StillKept(e, s.runs[key])
    ensures var t := Step(s, e).0; key in t.runs && Successor(e, key, s.runs[key], t.runs[key])
  {
    if e.Timed() {
      PrunedRun(s, e.now, key);
    }
    ActOnRun(Seen(s, e), e, key);
  }

  /** The run's part in a step. */
  lemma ActOnRun(p: State, e: Event, key: RunKey)
    requires key in p.runs
    ensures var run, t := p.runs[key], Act(p, e).0;
            && key in t.runs
            && t.runs[key] ==
               match e {
                 case DoRegister(id, _, token, _, _) =>
                   if KeyOf(id) == key && run.jti == Some(id.jti) && run.record.state == Active
                   then run.(token := token) else run
                 case DoFinish(k, _, unix) =>
                   if k == key then run.(record := Ended(run.record, unix)) else run
                 case DoAdmit(k, _) =>
                   if k == key && run.record.state == Active && run.inFlight < run.concurrency
                   then run.(inFlight := run.inFlight + 1) else run
                 case DoSettle(k, outcome) =>
                   if k == key then Settled(run, outcome) else run
                 case _ => run
               }
  {
  }

  predicate NothingForgets(es: seq<Event>, until: nat) {
    forall i :: 0 <= i < |es| && es[i].Timed() ==> es[i].now < until
  }

  /** Until its retention is over, a run keeps its place, its deadline and, once ended, its end. */
  lemma {:induction false} RememberedUntilRetention(s: State, es: seq<Event>, key: RunKey)
    requires key in s.runs && NothingForgets(es, s.runs[key].retainUntil)
    ensures var t := Exec(s, es);
            && key in t.runs
            && t.runs[key].record.proof == s.runs[key].record.proof
            && t.runs[key].retainUntil == s.runs[key].retainUntil
            && t.runs[key].jti == s.runs[key].jti
            && (s.runs[key].record.state != Active ==>
                t.runs[key].record.state == s.runs[key].record.state && t.runs[key].token == s.runs[key].token)
  {
    if es != [] {
      var n := |es| - 1;
      RememberedUntilRetention(s, es[..n], key);
      StepKeepsRun(Exec(s, es[..n]), es[n], key);
    }
  }

  predicate ForKey(e: Event, key: RunKey) {
    || (e.DoRegister? && KeyOf(e.id) == key)
    || (e.DoRegisterUnproven? && Unproven(e.name) == key)
  }

  /** The step `e` in state `s` gives `key` a fresh record. */
  predicate FreshRecord(s: State, e: Event, key: RunKey) {
    ForKey(e, key) && key !in Seen(s, e).runs && key in Step(s, e).0.runs
  }

  /** The clock readings never step back. */
  predicate Monotonic(es: seq<Event>) {
    forall i, j :: 0 <= i < j < |es| && es[i].Timed() && es[j].Timed() ==> es[i].now <= es[j].now
  }

  lemma FreshRecordLasts(p: State, e: Event, key: RunKey)
    requires key !in p.runs && key in Act(p, e).0.runs
    ensures e.Mints() && Act(p, e).0.runs[key].retainUntil == e.now + e.limits.ttl + RETENTION
  {
  }

  lemma FreshRecordsAreApart(s: State, between: seq<Event>, e: Event, key: RunKey)
    requires key in s.runs && FreshRecord(Exec(s, between), e, key)
    requires forall i :: 0 <= i < |between| && between[i].Timed() ==> between[i].now <= e.now
    ensures e.now >= s.runs[key].retainUntil
  {
    PrunedRun(Exec(s, between), e.now, key);
    if e.now < s.runs[key].retainUntil {
      RememberedUntilRetention(s, between, key);
    }
  }

  /** A key gets a fresh record at most once per its lifetime plus `RETENTION`. */
  lemma OneRecordPerRetention(es: seq<Event>, i: nat, j: nat, key: RunKey)
    requires i < j < |es| && Monotonic(es)
    requires FreshRecord(Exec(EMPTY, es[..i]), es[i], key)
    requires FreshRecord(Exec(EMPTY, es[..j]), es[j], key)
    ensures es[j].now >= es[i].now + es[i].limits.ttl + RETENTION
  {
    var s, between := Exec(EMPTY, es[..i]), es[i + 1..j];
    forall m | 0 <= m < |between| && between[m].Timed()
      ensures between[m].now <= es[j].now
    {
      assert between[m] == es[i + 1 + m];
    }
    FreshRecordLasts(Seen(s, es[i]), es[i], key);
    ExecNext(EMPTY, es, i);
    ExecBetween(EMPTY, es, i + 1, j);
    FreshRecordsAreApart(Step(s, es[i]).0, between, es[j], key);
  }

  // ---------------------------------------------------------------------
  // Capacity.

  function ProvenKeys(runs: map<RunKey, Run>): set<RunKey> {
    set k | k in runs && k.Github?
  }

  /**
   A proven registration is refused as `Full` only when proven runs alone fill
   what is not set aside: unproven ones cannot keep it out.
   */
  lemma ProvenRunsKeepTheirShare(es: seq<Event>, e: Event)
    requires FreshTokens(es) && e.DoRegister?
    requires Step(Exec(EMPTY, es), e).1 == Registration(Err(Full))
    ensures |ProvenKeys(Pruned(Exec(EMPTY, es), e.now).runs)| >= MAX_RUNS - MAX_UNPROVEN_RUNS
  {
    EveryReachableStateIsValid(es);
    SizesAfterPruning(Exec(EMPTY, es), e.now);
    ProvenAndUnproven(Pruned(Exec(EMPTY, es), e.now).runs);
    RefusedWhenFull(Exec(EMPTY, es), e);
  }

  lemma ProvenAndUnproven(runs: map<RunKey, Run>)
    ensures |runs| == |ProvenKeys(runs)| + |UnprovenKeys(runs)|
  {
    assert runs.Keys == ProvenKeys(runs) + UnprovenKeys(runs);
  }

  lemma RefusedWhenFull(s: State, e: Event)
    requires e.DoRegister? && Step(s, e).1 == Registration(Err(Full))
    ensures |Pruned(s, e.now).runs| >= MAX_RUNS
  {
  }
}
