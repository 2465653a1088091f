# What the credential broker keeps true

The broker is a gateway that lends its own provider credentials to short-lived
runs and to named operators. Around the HTTP plumbing it keeps a handful of
small stateful protocols, and what it promises to the people who own the
credentials rests on these: who may send a request, how many at once, what
their use is counted as, and when they must stop. This project models those
protocols and proves what they keep over every run.

| part | files | about |
|---|---|---|
| run registry | `Registry`, `RunsImplementation`, `RegistryInvariants`, `RegistryAnswers`, `UnprovenQuota`, `Admissions`, `Subjects`, `Records` | registration, tokens, lifecycle, the quota of runs without proof, concurrency slots, each run's record |
| usage and spend | `Usages`, `UsageImplementation`, `Weeks`, `Spending`, `SpendingClocks`, `SpendingLines` | the counts by provider and operator, the week of list-price spend |
| usage windows | `Attribution`, `WindowState`, `WindowReadings`, `WindowsImplementation`, `StateWriter`, `StateFiles`, `WriterRuns`, `LostWindows` | what each consumer used of the account's windows, and the state file that outlives restarts and crashes |
| budget | `Budgets`, `Allowances` | the policy file and the grants made from it |
| filter | `Ledgers`, `LedgersAgree`, `LedgersOwners`, `LedgersSpend`, `LedgersRequests`, `FilterImplementation`, `FilterAnswers` | a response's way through all of these ledgers |
| operators | `OperatorSlots`, `OperatorImplementation` | slots taken by threads that interleave |
| issuer keys | `KeyCaches` | when keys are fetched, and how old one may be |
| credential proxy | `UsageTaps`, `UsageEvents` | usage read from a response that comes in arbitrary chunks |
| Codex provider | `CredentialInstall` | replacing the credential file so that a crash loses nothing |

Code that the source runs under a mutex is a step: a function from one state to
the next. Beside each such function stands a class with the source's fields,
whose methods change them in place and are proved to take exactly that step.
What the source promises is proved about the steps, over all sequences of them.
What a step answers or stores is besides told without the step's own functions,
from the calls, the headers, the bytes or the operations that failed.
Where threads interleave below the level of a mutex (operator slots, the state
file's writer, the ledgers a response is posted to), or a crash may come
between two system calls, each atomic action is a step of its own.

Times are nanoseconds of the monotonic clock or seconds of the wall clock, as
in the source. Counters are 64 bits wide and saturate where the source's do.
Percentages and dollars are reals. Tokens stand for their SHA-256, and a newly
drawn one is assumed never drawn before.

Some of what the theorems found is worth knowing beside the code:

- The quota's own bound is tight: of the configurations that name a quota,
  those refused at start-up are exactly those under which a registration could
  be refused as `Full` while the registry has room.
- Each run's slot count stays exact if and only if no key is registered afresh
  while an admission of an earlier run of it is live. Such an admission then
  gives back a slot of the later run, and one more request is let in than that
  may have. An admission whose run is only forgotten does no harm.
- Whether the week's spend can be trusted depends on the clock alone. For some
  responses the view is inexact, and Mistral's weeks exceed the view's total,
  if and only if some settlement read an hour in the week asked for and a later
  one read an hour before that week, or a week or more after the first.
- An operator's request may be refused while a slot is free, but only while
  another refused attempt has yet to take itself off the counter.
- A window whose reset does not fit 64 bits as an absolute time is captured
  all the same, and makes the next restart forget every registry's windows.
- A registry that is named only after the latest copy for the file was begun,
  and has nothing captured since, is not in the file: what it had restored is
  then lost at the next restart. So is that of one a process never names, once
  it writes the file.

## Model

| member | source | states |
|---|---|---|
| Records.RecordIsExact | crates/praxis-gateway/src/runs.rs:286-298 | A record's totals are the exact sums of its metered responses, clipped once; at most 16 models are kept, each entry covers every response that named the model, and a named model is left out only when the record is full |
| Records.TotalsAreExact | crates/praxis-gateway/src/runs.rs:47-53 | Saturating each counter at every addition comes to the unlimited sum clipped once |
| Records.ModelIsExact | crates/praxis-gateway/src/runs.rs:290-297 | A kept model's entry is the complete saturated sum of the responses naming it, never a part |
| Records.SettlementOrderDoesNotMatter | crates/praxis-gateway/src/runs.rs:541-552 | Outcomes that settle in another order, metered, unmetered or failed, leave the same totals and unmetered count, and the same entry for every model both orders keep |
| Records.OutcomesAreExact | crates/praxis-gateway/src/runs.rs:541-552 | Over any outcomes the record is that of the metered ones alone, with the unmetered ones counted |
| Subjects.DecimalIsInjective | crates/praxis-gateway/src/runs.rs:190-206 | Two integers printed alike are equal, for integers of any size |
| Subjects.DecimalReadsBack | crates/praxis-gateway/src/runs.rs:190-206 | The digits an integer is printed as read back as that integer |
| Subjects.SubjectsNameRunsApart | crates/praxis-gateway/src/runs.rs:185-206 | Two run keys with one subject are the same key, with and without a check run, proven and unproven |
| Subjects.KindsOfSubjectsNeverCoincide | crates/praxis-gateway/src/operators.rs:86-90 | No operator's subject is a run's, no unproven run's a proven one's, whatever names were chosen |
| RunsImplementation.Runs.Prune | crates/praxis-gateway/src/runs.rs:613-628 | The two passes over the maps expire due runs, forget retained-out ones, and forget exactly their tokens |
| RunsImplementation.Runs.ExpireDue | crates/praxis-gateway/src/runs.rs:613-620 | The first pass changes only the state of active runs past their deadline |
| RunsImplementation.Runs.ForgetOld | crates/praxis-gateway/src/runs.rs:620-628 | The second pass keeps a run exactly when its retention is not over, and drops the tokens of the others |
| RunsImplementation.Runs.Register | crates/praxis-gateway/src/runs.rs:379-444 | Registration of a verified job is the registry's step, retries and refusals included |
| RunsImplementation.Runs.RegisterUnproven | crates/praxis-gateway/src/runs.rs:450-494 | Registration without proof is the registry's step, with the quota checked before room, and the queue popped even on refusal |
| RunsImplementation.Runs.PopOld | crates/praxis-gateway/src/runs.rs:463-467 | Popping the deque from the front leaves the admissions still in the window |
| RunsImplementation.Runs.Insert | crates/praxis-gateway/src/runs.rs:574-610 | A new run is indexed under its token and starts active with nothing used |
| RunsImplementation.Runs.Authenticate | crates/praxis-gateway/src/runs.rs:499-501 | A token is looked up after pruning |
| RunsImplementation.Runs.Record | crates/praxis-gateway/src/runs.rs:503-507 | A run's record is read after pruning, if the run is still remembered |
| RunsImplementation.Runs.Finish | crates/praxis-gateway/src/runs.rs:509-518 | Only an active run becomes finished; its record is answered either way |
| RunsImplementation.Runs.Admit | crates/praxis-gateway/src/runs.rs:521-539 | A request gets a slot of an active run that has one free, and is told closed or busy otherwise |
| RunsImplementation.Runs.Settle | crates/praxis-gateway/src/runs.rs:541-552 | A settlement gives one slot back and counts the outcome, without pruning |
| RegistryInvariants.EveryReachableStateIsValid | crates/praxis-gateway/src/runs.rs:317-325 | In every reachable state the token index and the runs are mutually inverse, and the sizes within both limits |
| RegistryInvariants.StepKeepsValid | crates/praxis-gateway/src/runs.rs:363-552 | Every method keeps that, through token replacement and pruning in bulk |
| RegistryInvariants.OnlyCurrentTokensAuthenticate | crates/praxis-gateway/src/runs.rs:499-501 | A token authenticates as a run if and only if it is the run's current one and the run is not yet forgotten |
| RegistryInvariants.DeadTokensStayDead | crates/praxis-gateway/src/runs.rs:388-400 | A token that stopped authenticating never does again, whatever follows |
| RegistryInvariants.ReplacedTokensDie | crates/praxis-gateway/src/runs.rs:388-400 | A retry with the same `jti` leaves the earlier token dead |
| RegistryInvariants.ForgottenTokensDie | crates/praxis-gateway/src/runs.rs:613-628 | The token of a run that a step forgets is dead after the step, whatever else the step does, so it stays dead |
| RegistryInvariants.StepKeepsRun | crates/praxis-gateway/src/runs.rs:379-552 | While a run is remembered a step changes only its token, its slots, what it used, or its end, and never leaves Finished or Expired |
| RegistryInvariants.RememberedUntilRetention | crates/praxis-gateway/src/runs.rs:613-628 | Over any steps before its retention is over, a run keeps its place, proof and, once ended, its end and token |
| RegistryInvariants.OneRecordPerRetention | crates/praxis-gateway/src/runs.rs:22-24 | Two fresh records of one key are at least the lifetime plus a day apart |
| RegistryInvariants.ProvenRunsKeepTheirShare | crates/praxis-gateway/src/runs.rs:471-474 | A proven registration is refused as `Full` only when proven runs alone fill three quarters of the registry |
| RegistryAnswers.RunIsAsRegistered | crates/praxis-gateway/src/runs.rs:574-610 | After any steps a remembered run has the concurrency, consumer, `jti`, proof and times that the latest step to give its key a fresh record asked for, the expiry in whole seconds and clipped to 64 bits |
| RegistryAnswers.AdmissionExactly | crates/praxis-gateway/src/runs.rs:521-539 | After any steps a request is told closed if and only if its run is forgotten, ended or expired, and busy if and only if it is not and every slot is in use |
| RegistryAnswers.RegistrationExactly | crates/praxis-gateway/src/runs.rs:379-444 | A verified job is refused as already registered if and only if its run is remembered and this is no retry of it while open, and as full if and only if it is not and 4096 runs are |
| RegistryAnswers.UnprovenRegistrationExactly | crates/praxis-gateway/src/runs.rs:450-494 | Over every run at nondecreasing times, a registration without proof is refused as already registered, over quota, or full exactly when its run is remembered, the window that ends now has as many admissions as the quota allows, or the registry has no room, in that order |
| RegistryAnswers.AnsweredIsTheRecord | crates/praxis-gateway/src/runs.rs:503-518 | A record that is answered is the run's as the step leaves it, and one is answered of every remembered run |
| UnprovenQuota.QuotaHolds | crates/praxis-gateway/src/runs.rs:450-494 | Over every run at nondecreasing times, any window of time holds at most the quota's admissions and at most `most_remembered` unproven runs are remembered |
| UnprovenQuota.EveryRunKeepsLog | crates/praxis-gateway/src/runs.rs:462-490 | The deque holds the recent part of the log of all admissions, which are spaced as the quota demands |
| UnprovenQuota.AcceptedIsNeverCrowded | crates/praxis-gateway/src/filter.rs:272-296 | Under an accepted quota a registration is refused as `Full` only when the whole registry is |
| UnprovenQuota.RefusedIsCrowded | crates/praxis-gateway/src/runs.rs:159-170 | Under a quota whose bound is too high, some run of registrations is refused as `Full` while the registry has room |
| UnprovenQuota.AcceptedExactlyWhenNeverCrowded | crates/praxis-gateway/src/filter.rs:272-296 | The configuration check accepts a quota if and only if registrations under it are never refused for want of room in a registry that has it |
| Admissions.Admitted.Settle | crates/praxis-gateway/src/runs.rs:652-667 | A settled admission tells the registry once what its response reported, and nothing when it is then dropped |
| Admissions.Admitted.Drop | crates/praxis-gateway/src/runs.rs:669-683 | An admission dropped unsettled gives its slot back, a successful response counting as unmetered |
| Admissions.MoveKeepsExact | crates/praxis-gateway/src/runs.rs:521-552 | Every run's slots in use stay its key's live admissions through every move that registers afresh no key with one |
| Admissions.SlotsStayExactUnlessInherited | crates/praxis-gateway/src/runs.rs:574-608 | A move from exact slots leaves them exact if and only if it does not register afresh a key with a live admission of an earlier run |
| Admissions.ExactExactlyWhenNoneInherited | crates/praxis-gateway/src/runs.rs:521-552 | Over any moves the slots are exact throughout if and only if no move does |
| Admissions.UnstrandedIsUninherited | crates/praxis-gateway/src/runs.rs:613-628 | As long as no admission outlives its run's retention, no move can |
| Admissions.SettledRunHasASlot | crates/praxis-gateway/src/runs.rs:541-552 | With exact slots the saturating decrement never saturates for a live admission whose run is remembered |
| Admissions.LiveAdmissionsAreWithinConcurrency | crates/praxis-gateway/src/runs.rs:521-539 | Over any moves that register afresh no key with a live admission, each run has exactly its slots in use, and at most its concurrency, of live admissions |
| Admissions.LiveAdmissionsAreWithinLimits | crates/praxis-gateway/src/runs.rs:521-539 | Over any such moves each run has at most as many live admissions as the concurrency it was registered with |
| Admissions.StrandedAdmissionLetsTwoIn | crates/praxis-gateway/src/runs.rs:541-552 | A run of six steps in which an admission outlives its retention: its end leaves a live request without a slot, and two live ones where one is allowed |
| Weeks.Week.Add | crates/praxis-gateway/src/usage.rs:218-238 | A charge goes to the bucket of its hour, or of the latest when the clock stepped back, after old buckets left |
| Weeks.Week.Expire | crates/praxis-gateway/src/usage.rs:241-249 | Popping from the front drops the buckets that are a week old |
| Weeks.Week.Sum | crates/praxis-gateway/src/usage.rs:252-259 | The loop of saturating additions comes to the exact sum of the week, clipped once |
| Weeks.CounterIsAWeek | crates/praxis-gateway/src/usage.rs:215-249 | Under any clock the buckets are strictly increasing, span less than 168 hours, and end at the latest hour charged |
| Weeks.WeekAgreesWithLog | crates/praxis-gateway/src/usage.rs:215-259 | The counter's sum is the saturated total of a plain log's charges still in the week, each under the latest hour there was when it was made |
| Weeks.PlacedWeekIsOwed | crates/praxis-gateway/src/usage.rs:215-259 | Under a clock that misplaces no charge, a week counts exactly the charges whose own hours are in it |
| Weeks.SafeUnlessSteppedBack | crates/praxis-gateway/src/usage.rs:241-259 | At an hour the clock has not passed, only a step back from inside the week to before it misplaces a charge |
| Usages.View | crates/praxis-gateway/src/usage.rs:318-346 | The view's sums over the runs and the shown operators are exact, clipped once, in whatever order operators are kept |
| UsageImplementation.BrokerUsage.MeterSpend | crates/praxis-gateway/src/usage.rs:500-514 | Metering starts once, with a week for every operator listed |
| UsageImplementation.BrokerUsage.DeclareOperator | crates/praxis-gateway/src/usage.rs:562-589 | An operator is listed in the counts and, if spend is metered, in the spend, until 64 are |
| UsageImplementation.BrokerUsage.SettleSpend | crates/praxis-gateway/src/usage.rs:523-546 | A response is charged to the runs or its operator, and to Mistral's week if it came from there |
| UsageImplementation.BrokerUsage.Settle | crates/praxis-gateway/src/usage.rs:548-556 | Only the provider's counts count the response |
| UsageImplementation.BrokerUsage.SettleOperator | crates/praxis-gateway/src/usage.rs:592-597 | Only a listed operator's counts count the response |
| UsageImplementation.BrokerUsage.SettleUnproven | crates/praxis-gateway/src/usage.rs:620-624 | The counts of the runs without proof are listed from their first response on |
| SpendingLines.MeteredSinceFirst | crates/praxis-gateway/src/usage.rs:500-514 | Spend is metered if and only if it was ever turned on, since the first time |
| SpendingLines.ListedExactly | crates/praxis-gateway/src/usage.rs:562-589 | The operators listed are exactly those declared while fewer than 64 names had been |
| SpendingLines.PublicExactly | crates/praxis-gateway/src/usage.rs:584-588 | The public ones are exactly the listed ones whose latest declaration said so |
| SpendingLines.LedgerIsOfTheEvents | crates/praxis-gateway/src/usage.rs:523-546 | The ledger of charges has, by the events alone, one line for each settlement while metered, of the runs or a listed operator: its price, or that it has none, or a success without usage |
| SpendingLines.OwedExactly | crates/praxis-gateway/src/usage.rs:252-259 | What a part of the ledger owes for a week is the sum of the prices and the numbers of unpriced and unmetered responses within 168 hours |
| Spending.SpendIsKeptForListedOperators | crates/praxis-gateway/src/usage.rs:500-514 | In whichever order metering and declarations come, spend is kept for exactly the listed operators, at most 64 |
| Spending.EveryRunKeepsBooks | crates/praxis-gateway/src/usage.rs:523-546 | Every week kept is the counter of the one ledger's lines for its payer |
| Spending.ViewIsWhatWasCharged | crates/praxis-gateway/src/usage.rs:321-346 | Under a clock that misplaces no charge, each view's total is what was charged in the week to the payers it shows, clipped once |
| Spending.ViewPartsAreWhatWasCharged | crates/praxis-gateway/src/usage.rs:321-346 | So are its sum over the runs and that of each operator shown, which are the listed ones, or those of them asked for |
| Spending.MistralWithinTotal | crates/praxis-gateway/src/usage.rs:538-545 | Under such a clock the two Mistral weeks never exceed the view's total |
| SpendingClocks.MistralWithinExactlyWhenSafe | crates/praxis-gateway/src/usage.rs:523-546 | For every clock and hour asked for, the Mistral weeks are within the total whatever was settled for whom if and only if no settlement in the week is followed by one before the week, or a week or more after itself |
| SpendingClocks.ViewExactExactlyWhenSafe | crates/praxis-gateway/src/usage.rs:321-346 | The view is exact for every such run of responses under exactly the same clocks |
| SpendingClocks.MonotonicIsSafe | crates/praxis-gateway/src/usage.rs:374-379 | A clock that never steps back is one of them, at every hour it has not passed |
| SpendingClocks.MistralCanExceedTotal | crates/praxis-gateway/src/usage.rs:538-545 | A run of two charges, the clock stepping back between them, where Mistral's week exceeds the total |
| Attribution.Charge | crates/praxis-gateway/src/budget.rs:85-112 | A reading's rise is charged to the consumer whose response read it; a reset starts over; a fall charges nobody |
| Attribution.ChargesAddUp | crates/praxis-gateway/src/budget.rs:85-112 | Over any readings the charges come to the account's whole reading and the overcharge, exactly |
| Attribution.NeverUndercharged | crates/praxis-gateway/src/budget.rs:85-112 | They are never short of it, and equal it exactly when the readings never fell between resets and the window's start was seen |
| WindowReadings.WindowReadsTheLatest | crates/praxis-gateway/src/usage.rs:632-712 | By the headers alone: a window reads what the latest headers that speak of it say, or is gone if they say zero minutes; its percent, reset and length are theirs, in Anthropic's units or Codex's, clipped to 64 bits |
| WindowReadings.WindowUnreadStays | crates/praxis-gateway/src/usage.rs:632-712 | A window that no complete headers speak of stays as it was |
| WindowReadings.WindowIsWatched | crates/praxis-gateway/src/usage.rs:703-707 | Over any captures a window is what its own readings, in order, make of it, so that the theorems about readings are about responses |
| WindowReadings.UseIsItsOwnRises | crates/praxis-gateway/src/budget.rs:85-112 | What each consumer used of a window is the sum of the rises its own responses read since the window began, with the first reading counted to both if it was found part-way and to its reader otherwise |
| WindowReadings.AnthropicShowsTheLatest | crates/praxis-gateway/src/usage.rs:977-994 | An Anthropic window is shown as the latest response with some header of it had them, a utilization out of range left out |
| WindowReadings.CodexShowsTheLatest | crates/praxis-gateway/src/usage.rs:996-1010 | A Codex window likewise, and not at all once it is reported with zero minutes |
| WindowReadings.ChangesExactly | crates/praxis-gateway/src/usage.rs:632-712 | A capture asks to be written if and only if some header of some window of the provider could be read |
| WindowState.ClampedCodex | crates/praxis-gateway/src/usage.rs:787-815 | Clamping a window read in the future keeps its absolute reset and does not overflow |
| WindowState.UnchangedNeedNotBeWritten | crates/praxis-gateway/src/usage.rs:632-712 | A capture that does not mark the state changed changed nothing |
| WindowState.RestartIsTransparent | crates/praxis-gateway/src/usage.rs:787-815 | Valid windows that are clamped, restored and marked keep every reading, use and absolute reset, whatever the clock says |
| WindowState.RestartDatesWindows | crates/praxis-gateway/src/budget.rs:115-128 | What is taken up is marked restored and loaded now, and was observed no later than now |
| WindowState.ValidExactly | crates/praxis-gateway/src/usage.rs:736-784 | Stored windows pass the check if and only if every number is in its range and every sum fits |
| WindowsImplementation.Windows.Capture | crates/praxis-gateway/src/usage.rs:632-712 | The method reads the provider's headers and charges their windows in place, as the step does, and says whether anything changed |
| WindowsImplementation.Windows.Attribute | crates/praxis-gateway/src/usage.rs:703-707 | The loop charges each window read and drops those the plan lacks |
| WindowsImplementation.Windows.ClampObservedAt | crates/praxis-gateway/src/usage.rs:787-815 | The loops clamp every window read in the future and report each, as the step does |
| StateWriter.StepKeepsInv | crates/praxis-gateway/src/usage.rs:838-873 | Every step of captures and writer keeps the invariant that rests on clearing the flag before copying |
| StateWriter.NoUpdateIsLost | crates/praxis-gateway/src/usage.rs:847-873 | In every interleaving, once the writer waits, no capture is under way and the latest write succeeded, the file holds the current windows of every registry captured for |
| StateWriter.CurrentExactlyWhenAllNoticed | crates/praxis-gateway/src/usage.rs:877-885 | Then the file holds all the current windows if and only if each named registry was captured for, or named before the latest copy |
| StateWriter.WriterIsAlwaysWoken | crates/praxis-gateway/src/usage.rs:847-865 | A writer that waits while a change is not in the file has a notification coming |
| StateFiles.ReadState | crates/praxis-gateway/src/usage.rs:907-935 | The loop over the registries takes up all of the file, or none if any registry is not valid |
| StateFiles.FileIsTakenUpExactlyWhenAllFit | crates/praxis-gateway/src/usage.rs:735-784 | After any lives of the process, ended anywhere, the file is taken up if and only if every registry's numbers in it fit, and always if every capture's did |
| StateFiles.UnfitFilesAreForgotten | crates/praxis-gateway/src/usage.rs:907-935 | One registry that does not fit makes a restart forget every registry's windows |
| StateFiles.FileIsRestored | crates/praxis-gateway/src/usage.rs:416-436 | What a registry restores is what the file had of it, but for how old it is |
| StateFiles.NoticedIsRestored | crates/praxis-gateway/src/usage.rs:847-873 | When the process ended with the writer waiting and the latest write successful, a restart restores the windows that each noticed registry had |
| StateFiles.UnnoticedIsLost | crates/praxis-gateway/src/usage.rs:877-885 | A registry not noticed had only what its start restored, and a restart has lost that |
| StateFiles.UnnamedIsLost | crates/praxis-gateway/src/usage.rs:877-885 | Once the process has written the file, nothing is restored of a registry it did not name |
| StateFiles.LastCopyIsRestored | crates/praxis-gateway/src/usage.rs:855-873 | After any other end a restart restores windows that each registry in the file had when last copied, or, if nothing was written, what the last start could have |
| StateFiles.RestartsAreTransparent | crates/praxis-gateway/src/usage.rs:907-956 | If all captures of all registries fit, a registry saved at the end of each earlier life has the windows of its captures alone, with no restart between them |
| LostWindows.OneUnfitLosesBoth | crates/praxis-gateway/src/usage.rs:907-935 | A run in which one registry's captures all fit and are lost with the other's, whose reset overflows |
| LostWindows.NamedTooLateIsLost | crates/praxis-gateway/src/usage.rs:877-885 | A run of two lives that end clean in which a registry is left out of the file and its windows lost |
| Budgets.AddShares | crates/praxis-gateway/src/budget.rs:251-258 | Shares are summed by pool, and refused exactly when one is out of range |
| Budgets.Parse | crates/praxis-gateway/src/budget.rs:248-277 | A policy is taken if and only if every share is within 0 to 100, no pool's sum exceeds 100 and the cap is positive |
| Budgets.GrantPool | crates/praxis-gateway/src/budget.rs:351-363 | The loop over a pool's windows grants each by itself, and holds the consumer exactly when a window read in time is over its allowance |
| Budgets.GrantPools | crates/praxis-gateway/src/budget.rs:283-362 | The loop over pools grants each on its own windows alone, and holds the consumer exactly when some pool does |
| Budgets.MakeGrant | crates/praxis-gateway/src/budget.rs:283-367 | The grant built pool by pool is the one specified, a consumer without shares included |
| Allowances.PacedExactly | crates/praxis-gateway/src/budget.rs:202-209 | Being within the share times the fraction elapsed plus a tenth, at most the whole, is being within the share and, multiplied out in whole seconds, within what has passed and a tenth |
| Budgets.HoldsExactly | crates/praxis-gateway/src/budget.rs:202-210 | A window does not hold if and only if it is fresh, within its share and, if longer than five hours, within the share of what has passed of it and a tenth: 10 used secs is at most share (10 (now - start) + secs) |
| Budgets.EntryHoldsExactly | crates/praxis-gateway/src/budget.rs:318-365 | A grant has an entry for a window exactly if it has a reading not past a restored reset; it holds exactly if that is old or over its allowance, and its figures are the share, the reset, and the use and the allowance to the hundredth |
| Budgets.PoolHoldsExactly | crates/praxis-gateway/src/budget.rs:340-365 | A pool of Anthropic or Codex is stale exactly if none of its windows has a reading or one's is old, and holds exactly if it has none, or one is old or over |
| Budgets.MistralPoolExactly | crates/praxis-gateway/src/budget.rs:302-317 | Mistral's pool has the one entry of the trailing week, paced from when metering began, and holds as it does; with no spend metered it is stale |
| Budgets.GrantHoldsExactly | crates/praxis-gateway/src/budget.rs:283-367 | A grant holds the consumer if and only if it has no shares, or is over its allowance of Mistral's week or of some window by a reading that is not old |
| Budgets.EveryRunCovers | crates/praxis-gateway/src/budget.rs:85-142 | After any captures, restarts and crashes, the amounts charged of any registry's window seen from its start cover its reading |
| Budgets.GrantsWindow | crates/praxis-gateway/src/usage.rs:466-494 | A grant's entry for a window is made from that window's attribution and no other's |
| Budgets.TwoGrantsBoundAccount | crates/praxis-gateway/src/budget.rs:199-219 | If both consumers have a share of a pool and neither is held on one of its windows, the account's whole reading is within the sum of their shares and, of a long window, within that sum of what has passed of it and a tenth; so within 100 percent |
| Budgets.BoundIsReached | crates/praxis-gateway/src/budget.rs:199-219 | That bound is tight: a run of three responses after which the account is wholly used, each consumer exactly its share, and neither is held |
| Budgets.NothingReadHoldsNoWork | crates/praxis-gateway/src/budget.rs:340-350 | Each pool nothing is read of holds at its own level and is stale, and has no part in holding the consumer, whatever is read of the others |
| Budgets.TwoGrantsBoundMistral | crates/praxis-gateway/src/budget.rs:302-317 | If neither consumer is held on Mistral's week, their two weeks together are within the sum of their shares of the cap, and of what has passed of the week since metering began and a tenth; so within the cap |
| Budgets.TwoGrantsBoundCharges | crates/praxis-gateway/src/usage.rs:466-494 | With a clock that misplaces no charge and a cap below 2^64 micros, all that was charged to Mistral in the week is then within those shares of the cap |
| UsageTaps.UsageTap.Feed | crates/credential-proxy/src/main.rs:628-646 | A chunk is taken line by line into the buffer, an overlong line skipped up to its end |
| UsageTaps.UsageTap.Scan | crates/credential-proxy/src/main.rs:648-668 | A held line's counts are merged and the buffer emptied |
| UsageTaps.UsageTap.Drop | crates/credential-proxy/src/main.rs:671-700 | What is logged at the end covers a last line without its newline |
| UsageTaps.LinesAreTheBytes | crates/credential-proxy/src/main.rs:628-646 | The lines the reader stands for are the bytes, cut after each newline and nowhere else |
| UsageTaps.ChunksDoNotMatter | crates/credential-proxy/src/main.rs:628-646 | However the bytes were cut into chunks, the reader's state is a function of the bytes |
| UsageTaps.TapReadsTheBytes | crates/credential-proxy/src/main.rs:628-668 | The usage logged is merged over the lines, or the one document, not longer than the cap; an overlong line affects no other, and the buffer never exceeds the cap |
| UsageTaps.MergedIsLargest | crates/credential-proxy/src/main.rs:594-599 | Each count merged is the largest any line reported |
| UsageEvents.ReportedOfEvent | crates/credential-proxy/src/main.rs:648-668 | A line of the bytes of `data:`, JSON and blanks around both reports what the JSON does, whatever the parser |
| UsageEvents.ReportedOfText | crates/credential-proxy/src/main.rs:648-668 | Any other text with the word usage reports what it does without the blanks around it |
| UsageEvents.ReportedOfOther | crates/credential-proxy/src/main.rs:648-653 | Text without the word reports nothing, even if it would parse |
| UsageEvents.StreamIsRead | crates/credential-proxy/src/main.rs:628-700 | However a stream of such lines and others was cut into chunks, the tap logs the largest of each count over the JSON of its events, and none exactly if none reports any |
| UsageEvents.DocumentIsRead | crates/credential-proxy/src/main.rs:628-700 | Of one document within the cap it logs what the JSON reports |
| CredentialInstall.Disk.WriteTemporary | crates/provider-codex/src/main.rs:533-563 | Every state on the way leaves the active file aside; a synced temporary file is left exactly if no operation failed, and else the failure told |
| CredentialInstall.Disk.WriteBackup | crates/provider-codex/src/main.rs:533-563 | The backup is replaced by a whole, synced file, exactly if no operation failed |
| CredentialInstall.Disk.KeepBackup | crates/provider-codex/src/main.rs:510-517 | The active file, if there is one, is backed up durably before it is replaced, exactly if no operation failed; the failure told is that of the one that did |
| CredentialInstall.Disk.InstallAuth | crates/provider-codex/src/main.rs:477-531 | Every filesystem state on the way is safe to crash in; the answer is success, and the file installed, if and only if a valid file is staged and no operation failed, and else names what was missing or failed; failure leaves the active file whole old or whole new |
| CredentialInstall.Disk.Replace | crates/provider-codex/src/main.rs:510-531 | Backup, rename and sync keep every state on the way safe, and succeed exactly if none of them failed |
| CredentialInstall.Disk.FinishLogin | crates/provider-codex/src/main.rs:451-465 | The end of a login is safe at every moment, even if the staged file was not yet synced, and succeeds if and only if that is valid and no operation failed |
| CredentialInstall.CrashLeavesOldOrNew | crates/provider-codex/src/main.rs:477-531 | A crash in a safe state leaves the whole old or the whole new active file; in the latter case the backup is the old one |
| CredentialInstall.InstalledIsDurable | crates/provider-codex/src/main.rs:518-531 | Once installed, any crash leaves the new file active and the old one the backup |
| CredentialInstall.SafeExactlyWhenSynced | crates/provider-codex/src/main.rs:451-462 | Whatever was active, renaming the staged file over it leaves the whole old or the whole new one after every crash if and only if the staged contents were synced |
| OperatorSlots.StepKeepsCount | crates/praxis-gateway/src/operators.rs:93-106 | No addition to the counter and no subtraction ever wraps around |
| OperatorSlots.SlotsAreWithinConcurrency | crates/praxis-gateway/src/operators.rs:93-127 | However many threads interleave, slots held never exceed the concurrency, and the counter is the slots and the attempts being undone |
| OperatorSlots.AdmittedExactly | crates/praxis-gateway/src/operators.rs:94-101 | An attempt is admitted exactly when its cluster is the operator's and slots and undoings leave room |
| OperatorSlots.FreeSlotCanBeRefused | crates/praxis-gateway/src/operators.rs:97-100 | A run of three requests where one is refused though the only slot is free |
| OperatorImplementation.Operator.Admit | crates/praxis-gateway/src/operators.rs:93-106 | With no other thread in between, the two operations on the counter leave it one higher if the request is admitted and as it was if not |
| OperatorImplementation.Operator.Release | crates/praxis-gateway/src/operators.rs:123-127 | A dropped slot takes itself off the counter |
| OperatorImplementation.AdmittingIsAttempting | crates/praxis-gateway/src/operators.rs:93-106 | The method answers as the interleaved steps do when they run one right after the other |
| KeyCaches.KeyCache.Key | crates/praxis-gateway/src/oidc.rs:454-477 | A call answers from the cache, fetches if it may, and updates keys and times as the step does |
| KeyCaches.RemembersAttempt | crates/praxis-gateway/src/oidc.rs:462-466 | The cache knows when the latest fetch began |
| KeyCaches.HoldsLatestSuccess | crates/praxis-gateway/src/oidc.rs:467-472 | The cache holds the latest key set fetched and when it came, whatever failed since |
| KeyCaches.FetchesAreApart | crates/praxis-gateway/src/oidc.rs:36-42 | Fetches begin at least a minute apart, whatever keys are asked for |
| KeyCaches.ReturnedKeysAreYoung | crates/praxis-gateway/src/oidc.rs:454-477 | A key returned is from the latest key set fetched, less than a day old |
| KeyCaches.OldKeysMeanAFailedFetch | crates/praxis-gateway/src/oidc.rs:454-477 | If that set is over an hour old, the latest fetch came after it, within the last minute, and failed |
| KeyCaches.FetchesExactly | crates/praxis-gateway/src/oidc.rs:454-466 | A call fetches if and only if the latest set fetched lacks its key or is an hour old, and every fetch began at least a minute ago |
| KeyCaches.AnswersExactly | crates/praxis-gateway/src/oidc.rs:454-477 | A call answers with a key if and only if the latest set fetched by its end has it and was under an hour old when the call began or is under a day old when it ends; invalid if and only if that set is under a day old and lacks it; unavailable otherwise |
| FilterImplementation.ReportedUsage | crates/praxis-gateway/src/filter.rs:798-821 | Usage is reported if and only if input and output are there and nothing was too large; cached and other input add up to the input, the total is at least the parts, and the reasoning, the cache writes and the model are as recorded |
| FilterImplementation.Filter.AdmitRun | crates/praxis-gateway/src/filter.rs:466-491 | A run's request is authenticated and admitted in two steps of the registry, with each refusal's answer |
| FilterAnswers.RunIsLetInExactly | crates/praxis-gateway/src/filter.rs:466-491 | After any steps a run's request is let in if and only if its token is the current one of an open run with a slot free, for that run and its consumer; told busy if that has none; and else unauthenticated |
| FilterImplementation.Filter.AdmitCaller | crates/praxis-gateway/src/filter.rs:466-491 | A token is looked up among the operators first, whose counter then admits or refuses the request, and only then among the runs |
| FilterImplementation.Filter.OnRequest | crates/praxis-gateway/src/filter.rs:886-979 | Only a request with the broker's credential is put down to anybody, and only one that may use tokens to a provider; each refusal takes no slot and leaves no exchange |
| FilterImplementation.Filter.OnResponse | crates/praxis-gateway/src/filter.rs:982-1004 | The status is taken down both where the providers' and where the run's settlement look for it, and the provider's windows are captured for the caller's consumer, if the response counts for a provider |
| FilterAnswers.OnlyItsPoolChanges | crates/praxis-gateway/src/usage.rs:640-702 | A response changes the readings of no pool but its own provider's |
| FilterAnswers.AnthropicReadsItsHeaders | crates/praxis-gateway/src/usage.rs:640-666 | Anthropic's five-hour and weekly windows are each read from their own headers |
| FilterAnswers.CodexReadsItsHeaders | crates/praxis-gateway/src/usage.rs:668-700 | And Codex's primary and secondary from theirs |
| FilterImplementation.Filter.OnResponseBody | crates/praxis-gateway/src/filter.rs:1006-1054 | A response that ends is posted to provider, caller, spend and record, each once, as the four steps do, and its slot given back |
| FilterImplementation.Filter.Abandon | crates/praxis-gateway/src/runs.rs:669-683 | A request dropped before its end is told to its run's record alone, or gives back its operator's slot |
| FilterImplementation.ArrivingIsRequesting | crates/praxis-gateway/src/filter.rs:481-490 | The method's request is the machine's lookup and request, one after the other |
| FilterImplementation.SettlingIsPosting | crates/praxis-gateway/src/filter.rs:1006-1054 | With nothing in between, the steps that post a response leave broker and registry as the method does |
| LedgersAgree.StepKeepsInv | crates/praxis-gateway/src/filter.rs:1006-1054 | Every step keeps every ledger at its total, and each run's record the ledger of its number |
| LedgersAgree.EveryLedgerIsItsTotal | crates/praxis-gateway/src/usage.rs:46-53 | After any interleaving of requests, responses, postings and registry calls every ledger holds the exact total of the responses posted to it, clipped once |
| LedgersOwners.EachIsInItsLedgers | crates/praxis-gateway/src/filter.rs:1020-1052 | A response that ended is in its own provider's ledger and no other's, with the runs without proof exactly if it is one's, in no other operator's, and in no record but of its own run's key |
| LedgersOwners.RecordIsTheRuns | crates/praxis-gateway/src/runs.rs:541-552 | The record a response is in is its run's, and it is the one its request was admitted under if and only if the run was not forgotten, and its key registered again, before the response was settled |
| LedgersRequests.RequestIsInItsLedger | crates/praxis-gateway/src/usage.rs:27-36 | A request injected for "anthropic", "inference-backend" or "mistral" that may use tokens is, once it has ended and been posted, in the ledger of Anthropic, Codex or Mistral and in no other provider's; any other request is in none; it is its sender's throughout |
| LedgersRequests.EndedIsReported | crates/praxis-gateway/src/filter.rs:1006-1054 | What a response reported when it ended, and whether it succeeded, is what it counts as ever after |
| LedgersAgree.CountedIfKept | crates/praxis-gateway/src/runs.rs:541-552 | A run's record counts a response exactly if the run is remembered then, and an operator's counts if it is listed |
| LedgersAgree.LedgersBalance | crates/praxis-gateway/src/filter.rs:1006-1054 | With nothing being posted, providers' counts, responses off the clusters and abandoned ones come to all records ever, operators' counts, and the responses nobody keeps a ledger for |
| LedgersAgree.ProvidersAndCallersAgree | crates/praxis-gateway/src/usage.rs:548-624 | When each has a ledger on both sides, requests and every token count agree, and the callers' unmetered exceed the providers' by the successful responses abandoned |
| LedgersSpend.ResponsesAreSpentOnce | crates/praxis-gateway/src/usage.rs:519-546 | The week's spend was told each response that counts exactly once, as what it reported, so that the theorems about the spend are about the gateway's responses |

## Left out

- Networking, HTTP and the async runtime: requests arrive as already parsed values, fetches return or fail as they will, and timeouts are only clock values.
- Hashing, signatures and random numbers: a token stands for its hash, hashes are taken as injective, and a newly drawn token as never drawn before.
- Parsing of JSON, YAML and headers: a line's counts are an arbitrary function of its bytes, headers are already numbers, and a written state file is taken to read back as what was written.
- The token cap, router and token counter belong to other crates and are not part of this model; what the counter recorded is a parameter.
- The price table: a response's price, or that it has none, is an arbitrary function of its usage.
- Rounding of 64-bit floats: percentages, shares and dollars are reals.
- Overflow of a record's `requests` and `unmetered`, which the source adds to without saturating: they are unbounded here. Reaching 2^64 responses in one run is out of reach.
- The registered and refused counters of the runs without proof: two plain saturating counters that nothing else reads.
- Overflow of the monotonic clock, and poisoned mutexes: the former cannot happen for lifetimes the configuration accepts, the latter is recovered from in place.
- StateWriter.NoUpdateIsLost: says nothing while the latest write has failed, because the source does not retry a failed write until the next change.
- LedgersAgree.LedgersBalance: says nothing once a counter has reached its limit, because from there on the sums are no longer kept; each ledger by itself still is its clipped total (`EveryLedgerIsItsTotal`).
- The state writer is a state machine on values, because threads interleave inside its methods: these are its atomic steps rather than class methods. The operator's counter and the posting of a response are proved both ways.
- Registration requests over HTTP, their answers and their rate limits: only the calls they make into the registry are modelled.
- How a token is found among a request's headers, and checks of a header's shape, such as a second `Authorization` header or a run token sent through to a provider.
- Framing and validation of the credential protocol, cross-origin answers, logging, and everything that only builds or deploys the services.
- Ownership, mode and symlink checks on the credential files: taken to have passed, and reading them to succeed, so that only creating, writing, syncing and renaming may fail.
