/**
 How the filter answers a run's request, and where it takes a response's
 headers, by the registry and the headers alone (filter.rs).

 The methods of module `FilterImplementation` are proved against functions of
 its own; here those functions are told by what they come to.
 */
module FilterAnswers {
  import opened Wrappers
  import opened Numbers
  import opened Records
  import opened Attribution
  import opened Registry
  import opened RegistryInvariants
  import opened RegistryAnswers
  import opened FilterImplementation
  import B = Budgets
  import S = WindowState
  import U = Usages
  import opened WindowReadings
  import opened Subjects

  // ---------------------------------------------------------------------
  // A run's request.

  /** The token is the current one of an open run. */
  predicate OpenWith(s: State, key: RunKey, token: Token, now: nat) {
    Open(s, key, now) && s.runs[key].token == token
  }

  predicate HasFreeSlot(run: Run) {
    run.inFlight < run.concurrency
  }

  lemma PrunedAgain(s: State, key: RunKey, now: nat)
    ensures key in Pruned(Pruned(s, now), now).runs <==> Remembered(s, key, now)
    ensures Remembered(s, key, now) ==>
              var run, was := Pruned(Pruned(s, now), now).runs[key], s.runs[key];
              && (run.record.state == Active <==> Open(s, key, now))
              && run.inFlight == was.inFlight && run.concurrency == was.concurrency && run.consumer == was.consumer
  {
    PrunedRun(s, now, key);
    PrunedRun(Pruned(s, now), now, key);
  }

  lemma EnteredByKey(s: State, token: Token, now: nat, key: RunKey)
    requires Step(s, DoAuthenticate(token, now)).1 == Who(Some(key)) && Remembered(s, key, now)
    ensures var answer, run := Entered(s, token, now).1, s.runs[key];
            && (answer == Ok((key, run.consumer)) <==> Open(s, key, now) && HasFreeSlot(run))
            && (answer.Ok? ==> answer == Ok((key, run.consumer)))
            && (answer == Err(Denial.Busy) <==> Open(s, key, now) && !HasFreeSlot(run))
            && (answer == Err(Unauthenticated) <==> !Open(s, key, now))
  {
    PrunedAgain(s, key, now);
    AdmitAnswers(Pruned(Pruned(s, now), now), key);
  }

  lemma NobodyEnters(s: State, token: Token, now: nat)
    requires Step(s, DoAuthenticate(token, now)).1 == Who(None)
    ensures Entered(s, token, now).1 == Err(Unauthenticated)
  {
  }

  /**
   After any steps, a request with a run's token is let in exactly if an open
   run of that token has a slot free, and for that run; told to wait exactly if
   an open run of that token has none; and else not known.
   */
  lemma RunIsLetInExactly(es: seq<Event>, token: Token, now: nat, key: RunKey)
    requires FreshTokens(es)
    ensures var s := Exec(EMPTY, es);
            var answer := Entered(s, token, now).1;
            && (answer.Ok? && answer.value.0 == key <==> OpenWith(s, key, token, now) && HasFreeSlot(s.runs[key]))
            && (answer.Ok? && answer.value.0 == key ==> answer.value.1 == s.runs[key].consumer)
            && (OpenWith(s, key, token, now) && !HasFreeSlot(s.runs[key]) ==> answer == Err(Denial.Busy))
            && (answer == Err(Denial.Busy) ==> exists k :: OpenWith(s, k, token, now) && !HasFreeSlot(s.runs[k]))
            && (answer.Err? ==> answer.error in {Denial.Busy, Unauthenticated})
  {
    var s := Exec(EMPTY, es);
    OnlyCurrentTokensAuthenticate(es, token, now, key);
    var who := Step(s, DoAuthenticate(token, now)).1;
    if who.key.None? {
      NobodyEnters(s, token, now);
    } else {
      OnlyCurrentTokensAuthenticate(es, token, now, who.key.value);
      EnteredByKey(s, token, now, who.key.value);
    }
  }

  // ---------------------------------------------------------------------
  // A response's headers.

  /** What attribution makes of the window `i` when a response from the provider is captured. */
  function AttributedAfter(w: S.Windows, r: Response, provider: U.Provider, consumer: Consumer, now: u64, i: nat): Option<Attributed>
    requires i < 4
  {
    S.Captured(w, HeadersFor(r, provider), consumer, now).attributed[i]
  }

  /** A response changes only its own provider's windows, in the pools that its grants are of. */
  lemma OnlyItsPoolChanges(w: S.Windows, r: Response, provider: U.Provider, consumer: Consumer, now: u64, i: nat)
    requires i < 4 && AttributedAfter(w, r, provider, consumer, now, i) != w.attributed[i]
    ensures B.PoolAt(i) == provider
  {
  }

  /** Each of Anthropic's windows is read from its own headers. */
  lemma AnthropicReadsItsHeaders(w: S.Windows, r: Response, consumer: Consumer, now: u64)
    requires Within(r.fiveHour.utilization, 1.0) && r.fiveHour.reset.Some?
    requires Within(r.sevenDay.utilization, 1.0) && r.sevenDay.reset.Some?
    ensures var five, seven := AttributedAfter(w, r, U.Anthropic, consumer, now, 0), AttributedAfter(w, r, U.Anthropic, consumer, now, 1);
            && five.Some? && five.value.reading == Reading(r.fiveHour.utilization.value * 100.0, r.fiveHour.reset.value, 18_000)
            && seven.Some? && seven.value.reading == Reading(r.sevenDay.utilization.value * 100.0, r.sevenDay.reset.value, 604_800)
            && B.NameAt(0) == "unified_5h" && B.NameAt(1) == "unified_7d"
  {
  }

  /** And each of Codex's. */
  lemma CodexReadsItsHeaders(w: S.Windows, r: Response, consumer: Consumer, now: u64)
    requires Within(r.primary.usedPercent, 100.0) && r.primary.minutes.Some? && r.primary.minutes != Some(0) && r.primary.resetAfter.Some?
    requires Within(r.secondary.usedPercent, 100.0) && r.secondary.minutes.Some? && r.secondary.minutes != Some(0) && r.secondary.resetAfter.Some?
    ensures var first, second := AttributedAfter(w, r, U.Codex, consumer, now, 2), AttributedAfter(w, r, U.Codex, consumer, now, 3);
            && first.Some? && first.value.reading.used == r.primary.usedPercent.value
            && second.Some? && second.value.reading.used == r.secondary.usedPercent.value
            && B.NameAt(2) == "primary" && B.NameAt(3) == "secondary"
  {
  }
}
