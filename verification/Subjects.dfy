/**
 Run keys and the authenticated subjects they are published as (runs.rs,
 operators.rs).

 Budgets are keyed on the subject, so two runs with one subject would share a
 cap. The lemmas show that subjects tell runs, and the kinds of callers, apart.
 */
module Subjects {
  import opened Wrappers
  import opened Numbers

  /** The longest identifier a run registered without proof may choose. */
  const MAX_RUN_NAME: nat := 128

  predicate PlainChar(c: char) {
    'a' <= c <= 'z' || 'A' <= c <= 'Z' || '0' <= c <= '9' || c == '.' || c == '_' || c == '-'
  }

  predicate ValidName(name: string) {
    name != "" && |name| <= MAX_RUN_NAME && forall i :: 0 <= i < |name| ==> PlainChar(name[i])
  }

  /** A name some caller chose; the source checks it with `ValidName` before there is one. */
  type RunName = string

  datatype RunKey =
    | Github(repositoryId: u64, runId: u64, runAttempt: u64, checkRunId: Option<u64>)
    | Unproven(name: RunName)

  /** Decimal digits without leading zeros, as `{}` prints an integer. */
  function Decimal(n: nat): string {
    var digit := ['0' + (n % 10) as char];
    if n < 10 then digit else Decimal(n / 10) + digit
  }

  const GITHUB := "github-run:"
  const UNPROVEN := "unproven-run:"
  const OPERATOR := "operator:"

  function Subject(key: RunKey): string {
    match key
    case Github(repository, run, attempt, Some(check)) =>
      GITHUB + Decimal(repository) + "/" + Decimal(run) + "/" + Decimal(attempt) + "/" + Decimal(check)
    case Github(repository, run, attempt, None) =>
      GITHUB + Decimal(repository) + "/" + Decimal(run) + "/" + Decimal(attempt)
    case Unproven(name) =>
      UNPROVEN + name
  }

  function OperatorSubject(name: string): string {
    OPERATOR + name
  }

  // ---------------------------------------------------------------------
  // Decimal printing is injective and prints digits only.

  predicate Digits(s: string) {
    forall i :: 0 <= i < |s| ==> '0' <= s[i] <= '9'
  }

  lemma {:induction false} DecimalPrintsDigits(n: nat)
    ensures Decimal(n) != "" && Digits(Decimal(n))
  {
    if n >= 10 {
      DecimalPrintsDigits(n / 10);
    }
  }

  /** The number that digits stand for, the last for the units. */
  function ValueOf(digits: string): int {
    if digits == "" then 0 else ValueOf(digits[..|digits| - 1]) * 10 + (digits[|digits| - 1] as int - '0' as int)
  }

  /** Digits are read back as the number they were printed from. */
  lemma {:induction false} DecimalReadsBack(n: nat)
    ensures ValueOf(Decimal(n)) == n
  {
    if n < 10 {
      assert Decimal(n)[..0] == "";
    } else {
      DecimalReadsBack(n / 10);
      assert Decimal(n)[..|Decimal(n)| - 1] == Decimal(n / 10);
    }
  }

  lemma DecimalIsInjective(a: nat, b: nat)
    requires Decimal(a) == Decimal(b)
    ensures a == b
  {
    DecimalReadsBack(a);
    DecimalReadsBack(b);
  }

  lemma {:induction false} DecimalIsShort(n: nat, digits: nat)
    requires digits <= 3 && n < if digits == 0 then 10 else if digits == 1 then 100 else if digits == 2 then 1000 else 10_000
    ensures |Decimal(n)| <= digits + 1
    decreases digits
  {
    if n >= 10 {
      DecimalIsShort(n / 10, digits - 1);
    }
  }

  /** What is before the first separator is determined by the whole. */
  lemma FirstField(a: string, x: string, b: string, y: string)
    requires Digits(a) && Digits(b)
    requires a + "/" + x == b + "/" + y
    ensures a == b && x == y
  {
    var s := a + "/" + x;
    assert s[|a|] == '/' && s[|b|] == '/';
    assert forall i :: 0 <= i < |a| ==> s[i] == a[i];
    assert forall i :: 0 <= i < |b| ==> s[i] == b[i];
    assert |a| == |b|;
    assert a == s[..|a|] && b == s[..|b|];
    assert x == s[|a| + 1..] && y == s[|b| + 1..];
  }

  lemma SeparatorIsNoDigit(a: string, x: string, digits: string)
    requires Digits(digits)
    ensures a + "/" + x != digits
  {
    assert (a + "/" + x)[|a|] == '/';
  }

  /** The part of a proven run's subject after its attempt's separator. */
  function Tail(attempt: nat, check: Option<nat>): string {
    match check
    case None => Decimal(attempt)
    case Some(c) => Decimal(attempt) + "/" + Decimal(c)
  }

  lemma TailIsInjective(a: nat, check: Option<nat>, b: nat, other: Option<nat>)
    requires Tail(a, check) == Tail(b, other)
    ensures a == b && check == other
  {
    DecimalPrintsDigits(a);
    DecimalPrintsDigits(b);
    if check.Some? {
      SeparatorIsNoDigit(Decimal(a), Decimal(check.value), Decimal(b));
    }
    if other.Some? {
      SeparatorIsNoDigit(Decimal(b), Decimal(other.value), Decimal(a));
    }
    if check.Some? && other.Some? {
      FirstField(Decimal(a), Decimal(check.value), Decimal(b), Decimal(other.value));
      DecimalIsInjective(check.value, other.value);
    }
    DecimalIsInjective(a, b);
  }

  lemma GithubSubject(key: RunKey)
    requires key.Github?
    ensures Subject(key) == GITHUB + (Decimal(key.repositoryId) + "/" + (Decimal(key.runId) + "/" + Tail(key.runAttempt, key.checkRunId)))
  {
    var repository, run, attempt := Decimal(key.repositoryId), Decimal(key.runId), Decimal(key.runAttempt);
    match key.checkRunId {
      case None => ThreeFields(repository, run, attempt);
      case Some(check) =>
        var four := Decimal(check);
        ThreeFields(repository, run, attempt + "/" + four);
        FourthField(GITHUB + repository + "/" + run + "/", attempt, four);
    }
  }

  lemma ThreeFields(a: string, b: string, c: string)
    ensures GITHUB + a + "/" + b + "/" + c == GITHUB + (a + "/" + (b + "/" + c))
  {
  }

  lemma FourthField(before: string, c: string, d: string)
    ensures before + c + "/" + d == before + (c + "/" + d)
  {
  }

  /** Two run keys with one subject are the same key. */
  lemma SubjectsNameRunsApart(a: RunKey, b: RunKey)
    requires Subject(a) == Subject(b)
    ensures a == b
  {
    assert Subject(a)[0] == if a.Github? then 'g' else 'u';
    assert Subject(b)[0] == if b.Github? then 'g' else 'u';
    if a.Github? {
      GithubSubject(a);
      GithubSubject(b);
      var ra, rb := Decimal(a.runId) + "/" + Tail(a.runAttempt, a.checkRunId), Decimal(b.runId) + "/" + Tail(b.runAttempt, b.checkRunId);
      assert Decimal(a.repositoryId) + "/" + ra == Subject(a)[|GITHUB|..];
      assert Decimal(b.repositoryId) + "/" + rb == Subject(b)[|GITHUB|..];
      DecimalPrintsDigits(a.repositoryId);
      DecimalPrintsDigits(b.repositoryId);
      FirstField(Decimal(a.repositoryId), ra, Decimal(b.repositoryId), rb);
      DecimalIsInjective(a.repositoryId, b.repositoryId);
      DecimalPrintsDigits(a.runId);
      DecimalPrintsDigits(b.runId);
      FirstField(Decimal(a.runId), Tail(a.runAttempt, a.checkRunId), Decimal(b.runId), Tail(b.runAttempt, b.checkRunId));
      DecimalIsInjective(a.runId, b.runId);
      TailIsInjective(a.runAttempt, a.checkRunId, b.runAttempt, b.checkRunId);
    } else {
      assert a.name == Subject(a)[|UNPROVEN|..];
      assert b.name == Subject(b)[|UNPROVEN|..];
    }
  }

  /**
   Proven runs, unproven runs and operators never share a subject, whatever
   names the latter two have; nor do two operators of different names.
   */
  lemma KindsOfSubjectsNeverCoincide(a: RunKey, b: RunKey, operator: string, other: string)
    ensures Subject(a) != OperatorSubject(operator)
    ensures a.Unproven? != b.Unproven? ==> Subject(a) != Subject(b)
    ensures OperatorSubject(operator) == OperatorSubject(other) ==> operator == other
  {
    assert Subject(a)[0] == if a.Github? then 'g' else 'u';
    assert Subject(b)[0] == if b.Github? then 'g' else 'u';
    assert OperatorSubject(operator)[0] == 'o';
    assert operator == OperatorSubject(operator)[|OPERATOR|..];
    assert other == OperatorSubject(other)[|OPERATOR|..];
  }
}
