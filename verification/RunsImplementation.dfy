/**
 The registry's state as the source updates it, in place under its lock
 (runs.rs). Each method is proved to do exactly the step of module `Registry`.
 */
module RunsImplementation {
  import opened Wrappers
  import opened Numbers
  import opened Records
  import opened Subjects
  import R = Registry

  class Runs {
    var runs: map<RunKey, R.Run>
    var tokens: map<R.Token, RunKey>
    var unproven: seq<nat>

    constructor ()
      ensures View() == R.EMPTY
    {
      runs, tokens, unproven := map[], map[], [];
    }

    ghost function View(): R.State
      reads this
    {
      R.State(runs, tokens, unproven)
    }

    /** Expire runs past their deadline, in no particular order. */
    method ExpireDue(now: nat)
      modifies this
      ensures tokens == old(tokens) && unproven == old(unproven)
      ensures runs.Keys == old(runs).Keys
      ensures forall k :: k in runs ==> runs[k] == R.Aged(old(runs)[k], now)
    {
      var rest := runs.Keys;
      while rest != {}
        invariant rest <= old(runs).Keys == runs.Keys
        invariant forall k :: k in runs ==> runs[k] == if k in rest then old(runs)[k] else R.Aged(old(runs)[k], now)
        invariant tokens == old(tokens) && unproven == old(unproven)
        decreases rest
      {
        var k :| k in rest;
        if runs[k].record.state == Active && now >= runs[k].expires {
          runs := runs[k := runs[k].(record := runs[k].record.(state := Expired))];
        }
        rest := rest - {k};
      }
    }

    /** Forget the runs past their retention, and their tokens. */
    method ForgetOld(now: nat)
      modifies this
      ensures unproven == old(unproven)
      ensures forall k :: k in runs <==> k in old(runs) && R.Kept(old(runs)[k], now)
      ensures forall k :: k in runs ==> runs[k] == old(runs)[k]
      ensures tokens == old(tokens) - R.ForgottenTokens(old(runs), now)
    {
      var rest := runs.Keys;
      ghost var gone: set<R.Token> := {};
      while rest != {}
        invariant rest <= runs.Keys <= old(runs).Keys
        invariant forall k :: k in old(runs) ==> (k in runs <==> k in rest || R.Kept(old(runs)[k], now))
        invariant forall k :: k in runs ==> runs[k] == old(runs)[k]
        invariant forall t :: t in gone <==> exists k :: k in old(runs) && k !in runs && old(runs)[k].token == t
        invariant tokens == old(tokens) - gone
        invariant unproven == old(unproven)
        decreases rest
      {
        var k :| k in rest;
        if !(now < runs[k].retainUntil) {
          tokens := tokens - {runs[k].token};
          gone := gone + {runs[k].token};
          runs := runs - {k};
        }
        rest := rest - {k};
      }
      assert gone == R.ForgottenTokens(old(runs), now);
    }

    method Prune(now: nat)
      modifies this
      ensures View() == R.Pruned(old(View()), now)
    {
      ExpireDue(now);
      ghost var aged := runs;
      assert R.ForgottenTokens(aged, now) == R.ForgottenTokens(old(runs), now) by {
        assert forall k :: k in aged ==> aged[k].token == old(runs)[k].token;
        assert forall k :: k in aged ==> aged[k].retainUntil == old(runs)[k].retainUntil;
      }
      ForgetOld(now);
      assert runs == R.Pruned(old(View()), now).runs;
    }

    method Insert(key: RunKey, proof: R.Proof, jti: Option<string>, consumer: R.Consumer, token: R.Token,
                  limits: R.Limits, now: nat, unix: u64) returns (record: R.RunRecord)
      modifies this
      ensures var run := R.NewRun(proof, jti, consumer, token, limits, now, unix);
              record == run.record && View() == R.Inserted(old(View()), key, run)
    {
      record := R.RunRecord(proof, Active, unix, SatAdd(unix, Sat(R.WholeSeconds(limits.ttl))), None, NOTHING_USED);
      tokens := tokens[token := key];
      runs := runs[key := R.Run(record, token, jti, consumer, limits.concurrency,
                                now + limits.ttl, now + limits.ttl + R.RETENTION, 0)];
    }

    method Register(id: R.RunIdentity, limits: R.Limits, token: R.Token, now: nat, unix: u64)
      returns (result: Result<R.RunRecord, R.RegisterError>)
      modifies this
      ensures (View(), result) == R.Register(R.Pruned(old(View()), now), id, limits, token, now, unix)
    {
      Prune(now);
      var key := R.KeyOf(id);
      if key in runs {
        var run := runs[key];
        if run.jti != Some(id.jti) || run.record.state != Active {
          return Err(R.AlreadyRegistered);
        }
        runs := runs[key := run.(token := token)];
        tokens := tokens - {run.token};
        tokens := tokens[token := key];
        return Ok(run.record);
      }
      if |runs| >= R.MAX_RUNS {
        return Err(R.Full);
      }
      var record := Insert(key, R.ProofOf(id), Some(id.jti), id.consumer, token, limits, now, unix);
      return Ok(record);
    }

    method RegisterUnproven(name: RunName, limits: R.Limits, quota: R.Quota, token: R.Token, now: nat, unix: u64)
      returns (result: Result<R.RunRecord, R.RegisterError>)
      modifies this
      ensures (View(), result) == R.RegisterUnproven(R.Pruned(old(View()), now), name, limits, quota, token, now, unix)
    {
      Prune(now);
      var key := Unproven(name);
      if key in runs {
        return Err(R.AlreadyRegistered);
      }
      PopOld(quota.window, now);
      if |unproven| >= quota.max {
        return Err(R.OverQuota);
      }
      var kept := set k | k in runs && k.Unproven?;
      if |kept| >= R.MAX_UNPROVEN_RUNS || |runs| >= R.MAX_RUNS {
        return Err(R.Full);
      }
      unproven := unproven + [now];
      var record := Insert(key, R.NoProof(name), None, R.Private, token, limits, now, unix);
      return Ok(record);
    }

    /** Drop the admissions that have left the quota's window, oldest first. */
    method PopOld(window: nat, now: nat)
      modifies this`unproven
      ensures unproven == R.Recent(old(unproven), now, window)
    {
      while unproven != [] && (if unproven[0] <= now then now - unproven[0] else 0) >= window
        invariant R.Recent(unproven, now, window) == R.Recent(old(unproven), now, window)
        decreases |unproven|
      {
        unproven := unproven[1..];
      }
    }

    method Authenticate(token: R.Token, now: nat) returns (key: Option<RunKey>)
      modifies this
      ensures View() == R.Pruned(old(View()), now) && key == R.Lookup(View(), token)
    {
      Prune(now);
      key := if token in tokens then Some(tokens[token]) else None;
    }

    method Record(key: RunKey, now: nat) returns (record: Option<R.RunRecord>)
      modifies this
      ensures View() == R.Pruned(old(View()), now) && record == R.ReadRecord(View(), key)
    {
      Prune(now);
      record := if key in runs then Some(runs[key].record) else None;
    }

    method Finish(key: RunKey, now: nat, unix: u64) returns (record: Option<R.RunRecord>)
      modifies this
      ensures (View(), record) == R.Finish(R.Pruned(old(View()), now), key, unix)
    {
      Prune(now);
      if key !in runs {
        return None;
      }
      if runs[key].record.state == Active {
        var ended := runs[key].record.(state := Finished, finishedAt := Some(unix));
        runs := runs[key := runs[key].(record := ended)];
      }
      assert View().runs == R.Finish(R.Pruned(old(View()), now), key, unix).0.runs;
      return Some(runs[key].record);
    }

    method Admit(key: RunKey, now: nat) returns (result: Result<R.Consumer, R.Refusal>)
      modifies this
      ensures (View(), result) == R.Admit(R.Pruned(old(View()), now), key)
    {
      Prune(now);
      if key !in runs || runs[key].record.state != Active {
        return Err(R.Closed);
      }
      if runs[key].inFlight >= runs[key].concurrency {
        return Err(R.Busy);
      }
      runs := runs[key := runs[key].(inFlight := runs[key].inFlight + 1)];
      return Ok(runs[key].consumer);
    }

    method Settle(key: RunKey, outcome: Outcome)
      modifies this
      ensures View() == R.Settle(old(View()), key, outcome)
    {
      if key !in runs {
        return;
      }
      var run := runs[key];
      run := run.(inFlight := if run.inFlight == 0 then 0 else run.inFlight - 1);
      match outcome {
        case Metered(usage) =>
          run := run.(record := run.record.(used := Add(run.record.used, usage)));
        case Unmetered =>
          run := run.(record := run.record.(used := run.record.used.(unmetered := run.record.used.unmetered + 1)));
        case Failed =>
      }
      runs := runs[key := run];
    }
  }
}
