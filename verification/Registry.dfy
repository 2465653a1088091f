/**
 The run registry as a state machine (runs.rs).

 Every method of the source runs under one mutex, so each is one atomic step:
 a function from the state to the next state and an answer. All but `settle`
 first prune by time. Times are nanoseconds of the monotonic clock. A bearer
 token stands for its SHA-256, which is taken as injective.
 */
module Registry {
  import opened Wrappers
  import opened Numbers
  import opened Records
  import opened Subjects

  /** Registrations kept at once, finished and expired ones included. */
  const MAX_RUNS: nat := 4096
  /** How long a run is remembered after it expires: a day. */
  const RETENTION: nat := 86_400_000_000_000
  /** Runs registered without proof that are kept at once: a quarter. */
  const MAX_UNPROVEN_RUNS: nat := 1024

  function WholeSeconds(duration: nat): nat {
    duration / 1_000_000_000
  }

  type Token = nat

  datatype Consumer = Public | Private

  datatype Limits = Limits(ttl: nat, concurrency: nat)

  /** The quota of registrations without proof: `max` in any `window`. */
  datatype Quota = Quota(max: u64, window: nat)

  /** A verified job; `claims` are the rest of its token's claims, copied as they are. */
  datatype RunIdentity = RunIdentity(
    repositoryId: u64, runId: u64, runAttempt: u64, checkRunId: Option<u64>,
    jti: string, consumer: Consumer, claims: string)

  function KeyOf(id: RunIdentity): RunKey {
    Github(id.repositoryId, id.runId, id.runAttempt, id.checkRunId)
  }

  datatype Proof =
    | GithubOidc(repositoryId: u64, runId: u64, runAttempt: u64, checkRunId: Option<u64>, claims: string)
    | NoProof(run: RunName)

  datatype RunRecord = RunRecord(
    proof: Proof, state: RunState, registeredAt: nat, expiresAt: nat, finishedAt: Option<nat>, used: Tallies)

  datatype Run = Run(
    record: RunRecord, token: Token, jti: Option<string>, consumer: Consumer, concurrency: nat,
    expires: nat, retainUntil: nat, inFlight: nat)

  /** `unproven` holds the times of admissions without proof, oldest first. */
  datatype State = State(runs: map<RunKey, Run>, tokens: map<Token, RunKey>, unproven: seq<nat>)

  const EMPTY := State(map[], map[], [])

  datatype RegisterError = AlreadyRegistered | Full | OverQuota

  datatype Refusal = Closed | Busy

  // ---------------------------------------------------------------------
  // Pruning.

  predicate Due(run: Run, now: nat) {
    run.record.state == Active && now >= run.expires
  }

  function Aged(run: Run, now: nat): Run {
    if Due(run, now) then run.(record := run.record.(state := Expired)) else run
  }

  predicate Kept(run: Run, now: nat) {
    now < run.retainUntil
  }

  function ForgottenTokens(runs: map<RunKey, Run>, now: nat): set<Token> {
    set k | k in runs && !Kept(runs[k], now) :: runs[k].token
  }

  /** Runs past their deadline are expired, and old ones forgotten with their tokens. */
  function Pruned(s: State, now: nat): State {
    State(map k | k in s.runs && Kept(s.runs[k], now) :: Aged(s.runs[k], now),
          s.tokens - ForgottenTokens(s.runs, now),
          s.unproven)
  }

  // ---------------------------------------------------------------------
  // Registration. These and the methods below act on a state already pruned
  // at the time of the call.

  function NewRun(proof: Proof, jti: Option<string>, consumer: Consumer, token: Token,
                  limits: Limits, now: nat, unix: u64): Run
  {
    var record := RunRecord(proof, Active, unix, SatAdd(unix, Sat(WholeSeconds(limits.ttl))), None, NOTHING_USED);
    Run(record, token, jti, consumer, limits.concurrency, now + limits.ttl, now + limits.ttl + RETENTION, 0)
  }

  function Inserted(s: State, key: RunKey, run: Run): State {
    s.(tokens := s.tokens[run.token := key], runs := s.runs[key := run])
  }

  function ProofOf(id: RunIdentity): Proof {
    GithubOidc(id.repositoryId, id.runId, id.runAttempt, id.checkRunId, id.claims)
  }

  function Replaced(s: State, key: RunKey, token: Token): State
    requires key in s.runs
  {
    var run := s.runs[key];
    s.(runs := s.runs[key := run.(token := token)], tokens := (s.tokens - {run.token})[token := key])
  }

  function Register(p: State, id: RunIdentity, limits: Limits, token: Token, now: nat, unix: u64)
    : (State, Result<RunRecord, RegisterError>)
  {
    var key := KeyOf(id);
    if key in p.runs then
      var run := p.runs[key];
      if run.jti != Some(id.jti) || run.record.state != Active then (p, Err(AlreadyRegistered))
      else (Replaced(p, key, token), Ok(run.record))
    else if |p.runs| >= MAX_RUNS then (p, Err(Full))
    else
      var run := NewRun(ProofOf(id), Some(id.jti), id.consumer, token, limits, now, unix);
      (Inserted(p, key, run), Ok(run.record))
  }

  /** The admissions left once those that have left the window are popped. */
  function Recent(times: seq<nat>, now: nat, window: nat): seq<nat> {
    if times != [] && (if times[0] <= now then now - times[0] else 0) >= window
    then Recent(times[1..], now, window)
    else times
  }

  function UnprovenKeys(runs: map<RunKey, Run>): set<RunKey> {
    set k | k in runs && k.Unproven?
  }

  function RegisterUnproven(p: State, name: RunName, limits: Limits, quota: Quota, token: Token, now: nat, unix: u64)
    : (State, Result<RunRecord, RegisterError>)
  {
    var key := Unproven(name);
    if key in p.runs then (p, Err(AlreadyRegistered))
    else
      var recent := Recent(p.unproven, now, quota.window);
      if |recent| >= quota.max then (p.(unproven := recent), Err(OverQuota))
      else if |UnprovenKeys(p.runs)| >= MAX_UNPROVEN_RUNS || |p.runs| >= MAX_RUNS then
        (p.(unproven := recent), Err(Full))
      else
        var run := NewRun(NoProof(name), None, Private, token, limits, now, unix);
        (Inserted(p, key, run).(unproven := recent + [now]), Ok(run.record))
  }

  // ---------------------------------------------------------------------
  // The other methods.

  function Lookup(s: State, token: Token): Option<RunKey> {
    if token in s.tokens then Some(s.tokens[token]) else None
  }

  function ReadRecord(p: State, key: RunKey): Option<RunRecord> {
    if key in p.runs then Some(p.runs[key].record) else None
  }

  function Ended(record: RunRecord, unix: u64): RunRecord {
    if record.state == Active then record.(state := Finished, finishedAt := Some(unix)) else record
  }

  function Finish(p: State, key: RunKey, unix: u64): (State, Option<RunRecord>) {
    if key !in p.runs then (p, None)
    else
      var run := p.runs[key].(record := Ended(p.runs[key].record, unix));
      (p.(runs := p.runs[key := run]), Some(run.record))
  }

  function Admit(p: State, key: RunKey): (State, Result<Consumer, Refusal>) {
    if key !in p.runs || p.runs[key].record.state != Active then (p, Err(Closed))
    else
      var run := p.runs[key];
      if run.inFlight >= run.concurrency then (p, Err(Busy))
      else (p.(runs := p.runs[key := run.(inFlight := run.inFlight + 1)]), Ok(run.consumer))
  }

  function Settled(run: Run, outcome: Outcome): Run {
    run.(inFlight := if run.inFlight == 0 then 0 else run.inFlight - 1,
         record := run.record.(used := Tallied(run.record.used, outcome)))
  }

  /** Give back an admission's slot. Alone among the methods, it does not prune. */
  function Settle(s: State, key: RunKey, outcome: Outcome): State {
    if key !in s.runs then s else s.(runs := s.runs[key := Settled(s.runs[key], outcome)])
  }

  // ---------------------------------------------------------------------
  // Runs of the registry: sequences of steps in the order the mutex was taken.

  datatype Event =
    | DoRegister(id: RunIdentity, limits: Limits, token: Token, now: nat, unix: u64)
    | DoRegisterUnproven(name: RunName, limits: Limits, quota: Quota, token: Token, now: nat, unix: u64)
    | DoAuthenticate(token: Token, now: nat)
    | DoRecord(key: RunKey, now: nat)
    | DoFinish(key: RunKey, now: nat, unix: u64)
    | DoAdmit(key: RunKey, now: nat)
    | DoSettle(key: RunKey, outcome: Outcome)
  {
    /** Whether the step reads the clock, and so prunes. */
    predicate Timed() {
      !DoSettle?
    }

    /** Whether the step may put a new token in the index. */
    predicate Mints() {
      DoRegister? || DoRegisterUnproven?
    }
  }

  datatype Answer =
    | Registration(result: Result<RunRecord, RegisterError>)
    | Who(key: Option<RunKey>)
    | Known(record: Option<RunRecord>)
    | Admission(admitted: Result<Consumer, Refusal>)
    | Nothing

  /** What a step does once it has pruned, if it does. */
  function Act(p: State, e: Event): (State, Answer) {
    match e
    case DoRegister(id, limits, token, now, unix) =>
      var (t, r) := Register(p, id, limits, token, now, unix); (t, Registration(r))
    case DoRegisterUnproven(name, limits, quota, token, now, unix) =>
      var (t, r) := RegisterUnproven(p, name, limits, quota, token, now, unix); (t, Registration(r))
    case DoAuthenticate(token, _) =>
      (p, Who(Lookup(p, token)))
    case DoRecord(key, _) =>
      (p, Known(ReadRecord(p, key)))
    case DoFinish(key, _, unix) =>
      var (t, r) := Finish(p, key, unix); (t, Known(r))
    case DoAdmit(key, _) =>
      var (t, r) := Admit(p, key); (t, Admission(r))
    case DoSettle(key, outcome) =>
      (Settle(p, key, outcome), Nothing)
  }

  function Seen(s: State, e: Event): State {
    if e.Timed() then Pruned(s, e.now) else s
  }

  function Step(s: State, e: Event): (State, Answer) {
    Act(Seen(s, e), e)
  }

  function Exec(s: State, es: seq<Event>): State {
    if es == [] then s else Step(Exec(s, es[..|es| - 1]), es[|es| - 1]).0
  }

  lemma ExecNext(s: State, es: seq<Event>, i: nat)
    requires i < |es|
    ensures Exec(s, es[..i + 1]) == Step(Exec(s, es[..i]), es[i]).0
  {
    assert es[..i + 1][..i] == es[..i];
  }

  lemma {:induction false} ExecInTwo(s: State, a: seq<Event>, b: seq<Event>)
    ensures Exec(s, a + b) == Exec(Exec(s, a), b)
  {
    if b == [] {
      assert a + b == a;
    } else {
      assert (a + b)[..|a + b| - 1] == a + b[..|b| - 1];
      ExecInTwo(s, a, b[..|b| - 1]);
    }
  }

  lemma ExecBetween(s: State, es: seq<Event>, i: nat, j: nat)
    requires i <= j <= |es|
    ensures Exec(s, es[..j]) == Exec(Exec(s, es[..i]), es[i..j])
  {
    CutAt(es, i, j);
    ExecInTwo(s, es[..i], es[i..j]);
  }

  lemma CutAt(es: seq<Event>, i: nat, j: nat)
    requires i <= j <= |es|
    ensures es[..j] == es[..i] + es[i..j]
  {
  }
}
