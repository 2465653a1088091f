/**
 A registry's subscription windows: what a response reports of them, and how
 a state file's are checked and taken up (usage.rs).

 Windows that were stored are validated, and their times clamped to the clock,
 before they are taken up. The lemmas say when they pass, and that what is
 taken up is all that attribution depends on. Module `StateFiles` has the
 file with every registry's. Headers are already parsed.
 */
module WindowState {
  import opened Wrappers
  import opened Numbers
  import opened Registry
  import opened Attribution

  const FIVE_HOURS: u64 := 18_000
  const WEEK: u64 := 604_800

  datatype Status = Allowed | AllowedWarning | Rejected

  datatype AnthropicWindow = AnthropicWindow(
    utilization: Option<real>, reset: Option<u64>, status: Option<Status>, observedAt: u64, restored: bool)

  datatype CodexWindow = CodexWindow(
    usedPercent: Option<real>, minutes: Option<u64>, resetAfter: Option<u64>, observedAt: u64, restored: bool)

  /** One for each of Anthropic's two windows and Codex's two. */
  type FourWindows = s: seq<Option<Attributed>> | |s| == 4 witness [None, None, None, None]

  datatype Windows = Windows(
    fiveHour: Option<AnthropicWindow>, sevenDay: Option<AnthropicWindow>,
    primary: Option<CodexWindow>, secondary: Option<CodexWindow>, attributed: FourWindows)

  const NO_WINDOWS := Windows(None, None, None, None, [None, None, None, None])

  // ---------------------------------------------------------------------
  // Capture.

  /** A window's headers; a header that is missing or no number is none. */
  datatype AnthropicHeaders = AnthropicHeaders(utilization: Option<real>, reset: Option<u64>, status: Option<Status>)
  datatype CodexHeaders = CodexHeaders(usedPercent: Option<real>, minutes: Option<u64>, resetAfter: Option<u64>)

  datatype Headers =
    | Anthropic(fiveHour: AnthropicHeaders, sevenDay: AnthropicHeaders)
    | Codex(primary: CodexHeaders, secondary: CodexHeaders)
    | Mistral

  function InRange(n: Option<real>, max: real): Option<real> {
    if n.Some? && 0.0 <= n.value <= max then n else None
  }

  function AnthropicWindowOf(h: AnthropicHeaders, now: u64): Option<AnthropicWindow> {
    var utilization := InRange(h.utilization, 1.0);
    if utilization.Some? || h.reset.Some? || h.status.Some?
    then Some(AnthropicWindow(utilization, h.reset, h.status, now, false)) else None
  }

  function CodexWindowOf(h: CodexHeaders, now: u64): Option<CodexWindow> {
    var usedPercent := InRange(h.usedPercent, 100.0);
    if usedPercent.Some? || h.minutes.Some? || h.resetAfter.Some?
    then Some(CodexWindow(usedPercent, h.minutes, h.resetAfter, now, false)) else None
  }

  /** What a response says of a window for attribution: nothing, that there is none, or a reading. */
  datatype Said = Silent | Absent | Reads(reading: Reading)

  function AnthropicSays(window: Option<AnthropicWindow>, secs: u64): Said {
    match window
    case Some(w) =>
      if w.utilization.Some? && w.reset.Some? then Reads(Reading(w.utilization.value * 100.0, w.reset.value, secs)) else Silent
    case None => Silent
  }

  function SatMul(a: u64, b: u64): u64 {
    Sat(a * b)
  }

  function CodexSays(window: Option<CodexWindow>, now: u64): Said {
    match window
    case Some(w) =>
      if w.minutes == Some(0) then Absent
      else if w.usedPercent.Some? && w.minutes.Some? && w.resetAfter.Some? then
        Reads(Reading(w.usedPercent.value, SatAdd(now, w.resetAfter.value), SatMul(w.minutes.value, 60)))
      else Silent
    case None => Silent
  }

  function Attributing(window: Option<Attributed>, said: Said, consumer: Consumer, now: u64): Option<Attributed> {
    match said
    case Silent => window
    case Absent => None
    case Reads(reading) => Some(Charged(window, reading, consumer, now))
  }

  function AnthropicSlot(slot: Option<AnthropicWindow>, window: Option<AnthropicWindow>): Option<AnthropicWindow> {
    if window.Some? then window else slot
  }

  /** A window the plan does not have comes as zeros. */
  function CodexSlot(slot: Option<CodexWindow>, window: Option<CodexWindow>): Option<CodexWindow> {
    if window.None? then slot else if window.value.minutes == Some(0) then None else window
  }

  function Captured(w: Windows, h: Headers, consumer: Consumer, now: u64): Windows {
    match h
    case Anthropic(h5, h7) =>
      var five, seven := AnthropicWindowOf(h5, now), AnthropicWindowOf(h7, now);
      w.(fiveHour := AnthropicSlot(w.fiveHour, five),
         sevenDay := AnthropicSlot(w.sevenDay, seven),
         attributed := w.attributed[0 := Attributing(w.attributed[0], AnthropicSays(five, FIVE_HOURS), consumer, now)]
                                   [1 := Attributing(w.attributed[1], AnthropicSays(seven, WEEK), consumer, now)])
    case Codex(h1, h2) =>
      var first, second := CodexWindowOf(h1, now), CodexWindowOf(h2, now);
      w.(primary := CodexSlot(w.primary, first),
         secondary := CodexSlot(w.secondary, second),
         attributed := w.attributed[2 := Attributing(w.attributed[2], CodexSays(first, now), consumer, now)]
                                   [3 := Attributing(w.attributed[3], CodexSays(second, now), consumer, now)])
    case Mistral => w
  }

  /** Whether the capture must be written to the state file. */
  predicate Changes(h: Headers, now: u64) {
    match h
    case Anthropic(h5, h7) => AnthropicWindowOf(h5, now).Some? || AnthropicWindowOf(h7, now).Some?
    case Codex(h1, h2) => CodexWindowOf(h1, now).Some? || CodexWindowOf(h2, now).Some?
    case Mistral => false
  }

  /** A capture that need not be written changes nothing. */
  lemma UnchangedNeedNotBeWritten(w: Windows, h: Headers, consumer: Consumer, now: u64)
    requires !Changes(h, now)
    ensures Captured(w, h, consumer, now) == w
  {
    assert Captured(w, h, consumer, now).attributed == w.attributed;
  }

  // ---------------------------------------------------------------------
  // The state file.

  datatype WindowError = BadUtilization | BadPercent | BadMinutes | ResetOverflows | BadAttributed(index: nat)

  predicate GoodUtilization(window: Option<AnthropicWindow>) {
    window.Some? && window.value.utilization.Some? ==> 0.0 <= window.value.utilization.value <= 1.0
  }

  function CodexError(window: Option<CodexWindow>): Option<WindowError> {
    match window
    case None => None
    case Some(w) =>
      if w.usedPercent.Some? && !(0.0 <= w.usedPercent.value <= 100.0) then Some(BadPercent)
      else if w.minutes.Some? && (w.minutes.value == 0 || w.minutes.value * 60 > U64_MAX) then Some(BadMinutes)
      else if w.resetAfter.Some? && w.observedAt + w.resetAfter.value > U64_MAX then Some(ResetOverflows)
      else None
  }

  function FirstBad(attributed: seq<Option<Attributed>>, from: nat): Option<WindowError>
    requires from <= |attributed|
    decreases |attributed| - from
  {
    if from == |attributed| then None
    else if attributed[from].Some? && !ValidWindow(attributed[from].value) then Some(BadAttributed(from))
    else FirstBad(attributed, from + 1)
  }

  /** The first thing wrong with stored windows. */
  function Invalid(w: Windows): Option<WindowError> {
    if !GoodUtilization(w.fiveHour) || !GoodUtilization(w.sevenDay) then Some(BadUtilization)
    else if CodexError(w.primary).Some? then CodexError(w.primary)
    else if CodexError(w.secondary).Some? then CodexError(w.secondary)
    else FirstBad(w.attributed, 0)
  }

  function ClampedAnthropic(window: Option<AnthropicWindow>, now: u64): Option<AnthropicWindow> {
    if window.Some? && window.value.observedAt > now then Some(window.value.(observedAt := now)) else window
  }

  predicate ResetFits(window: Option<CodexWindow>) {
    window.Some? && window.value.resetAfter.Some? ==> window.value.observedAt + window.value.resetAfter.value <= U64_MAX
  }

  /** A window's absolute reset is kept, and fits if it did. */
  function ClampedCodex(window: Option<CodexWindow>, now: u64): (clamped: Option<CodexWindow>)
    requires ResetFits(window)
    ensures ResetFits(clamped)
    ensures AbsoluteReset(clamped) == AbsoluteReset(window)
  {
    if window.Some? && window.value.observedAt > now then
      var w := window.value;
      var ahead := w.observedAt - now;
      Some(w.(observedAt := now, resetAfter := if w.resetAfter.Some? then Some(w.resetAfter.value + ahead) else None))
    else window
  }

  /** When the window resets, in absolute time. */
  function AbsoluteReset(window: Option<CodexWindow>): Option<nat> {
    if window.Some? && window.value.resetAfter.Some? then Some(window.value.observedAt + window.value.resetAfter.value) else None
  }

  function ClampedAttributed(window: Option<Attributed>, now: u64): Option<Attributed> {
    if window.Some? then Some(ClampedWindow(window.value, now)) else None
  }

  function Clamped(w: Windows, now: u64): Windows
    requires ResetFits(w.primary) && ResetFits(w.secondary)
  {
    Windows(ClampedAnthropic(w.fiveHour, now), ClampedAnthropic(w.sevenDay, now),
            ClampedCodex(w.primary, now), ClampedCodex(w.secondary, now),
            [ClampedAttributed(w.attributed[0], now), ClampedAttributed(w.attributed[1], now),
             ClampedAttributed(w.attributed[2], now), ClampedAttributed(w.attributed[3], now)])
  }

  function RestoredAttributed(window: Option<Attributed>, now: u64): Option<Attributed> {
    if window.Some? then Some(RestoredWindow(window.value, now)) else None
  }

  lemma ValidFits(w: Windows)
    requires Invalid(w).None?
    ensures ResetFits(w.primary) && ResetFits(w.secondary)
  {
  }

  /** What the gateway takes up of valid windows in a file. */
  function TakenUp(w: Windows, now: u64): Windows
    requires Invalid(w).None?
  {
    ValidFits(w);
    var c := Clamped(w, now);
    c.(attributed := [RestoredAttributed(c.attributed[0], now), RestoredAttributed(c.attributed[1], now),
                      RestoredAttributed(c.attributed[2], now), RestoredAttributed(c.attributed[3], now)])
  }

  function MarkAnthropic(window: Option<AnthropicWindow>): Option<AnthropicWindow> {
    if window.Some? then Some(window.value.(restored := true)) else None
  }

  function MarkCodex(window: Option<CodexWindow>): Option<CodexWindow> {
    if window.Some? then Some(window.value.(restored := true)) else None
  }

  function Marked(w: Windows): Windows {
    Windows(MarkAnthropic(w.fiveHour), MarkAnthropic(w.sevenDay), MarkCodex(w.primary), MarkCodex(w.secondary), w.attributed)
  }

  /** The windows a registry starts with, when the file has valid ones for it. */
  function Restarted(w: Windows, now: u64): Windows
    requires Invalid(w).None?
  {
    Marked(TakenUp(w, now))
  }

  // ---------------------------------------------------------------------
  // Sequences of captures.

  datatype Capture = Capture(headers: Headers, consumer: Consumer, now: u64)

  function Step(w: Windows, c: Capture): Windows {
    Captured(w, c.headers, c.consumer, c.now)
  }

  /** The windows after captures, with no restart between them. */
  function Exec(w: Windows, cs: seq<Capture>): Windows {
    if cs == [] then w else Step(Exec(w, cs[..|cs| - 1]), cs[|cs| - 1])
  }

  /** A window's length in seconds and its absolute reset fit in 64 bits. */
  predicate SlotFits(window: Option<CodexWindow>) {
    window.Some? ==>
      && (window.value.minutes.Some? ==> window.value.minutes.value * 60 <= U64_MAX)
      && ResetFits(window)
  }

  predicate Fits(w: Windows) {
    SlotFits(w.primary) && SlotFits(w.secondary)
  }

  /** What the headers report fits. */
  predicate ReportFits(h: Headers, now: u64) {
    h.Codex? ==> SlotFits(CodexWindowOf(h.primary, now)) && SlotFits(CodexWindowOf(h.secondary, now))
  }

  // ---------------------------------------------------------------------
  // What every run keeps.

  predicate CodexInRange(window: Option<CodexWindow>) {
    window.Some? ==>
      && window.value.minutes != Some(0)
      && (window.value.usedPercent.Some? ==> 0.0 <= window.value.usedPercent.value <= 100.0)
  }

  /** Every number is in the range its reader accepts, if not every sum. */
  predicate InRanges(w: Windows) {
    && GoodUtilization(w.fiveHour) && GoodUtilization(w.sevenDay)
    && CodexInRange(w.primary) && CodexInRange(w.secondary)
    && forall i :: 0 <= i < 4 && w.attributed[i].Some? ==> ValidWindow(w.attributed[i].value)
  }

  lemma {:induction false} NoneBad(attributed: FourWindows, from: nat)
    requires from <= 4
    ensures FirstBad(attributed, from).None? <==>
            forall i :: from <= i < 4 && attributed[i].Some? ==> ValidWindow(attributed[i].value)
    decreases 4 - from
  {
    if from < 4 {
      NoneBad(attributed, from + 1);
    }
  }

  /** Stored windows are taken exactly if every number is in its range and every sum fits. */
  lemma ValidExactly(w: Windows)
    ensures Invalid(w).None? <==> InRanges(w) && Fits(w)
  {
    NoneBad(w.attributed, 0);
  }

  lemma AttributingKeepsValid(window: Option<Attributed>, said: Said, consumer: Consumer, now: u64)
    requires window.Some? ==> ValidWindow(window.value)
    requires said.Reads? ==> 0.0 <= said.reading.used <= 100.0 && said.reading.secs > 0
    ensures var next := Attributing(window, said, consumer, now); next.Some? ==> ValidWindow(next.value)
  {
    if said.Reads? {
      ChargingKeepsValid(window, said.reading, consumer, now);
    }
  }

  lemma CodexReadsInRange(h: CodexHeaders, now: u64)
    ensures var said := CodexSays(CodexWindowOf(h, now), now);
            said.Reads? ==> 0.0 <= said.reading.used <= 100.0 && said.reading.secs > 0
  {
  }

  lemma AnthropicReadsInRange(h: AnthropicHeaders, now: u64, secs: u64)
    requires secs > 0
    ensures var said := AnthropicSays(AnthropicWindowOf(h, now), secs);
            said.Reads? ==> 0.0 <= said.reading.used <= 100.0 && said.reading.secs > 0
  {
  }

  lemma AnthropicKeepsRanges(w: Windows, h5: AnthropicHeaders, h7: AnthropicHeaders, consumer: Consumer, now: u64)
    requires InRanges(w)
    ensures InRanges(Captured(w, Anthropic(h5, h7), consumer, now))
  {
    AnthropicReadsInRange(h5, now, FIVE_HOURS);
    AnthropicReadsInRange(h7, now, WEEK);
    AttributingKeepsValid(w.attributed[0], AnthropicSays(AnthropicWindowOf(h5, now), FIVE_HOURS), consumer, now);
    AttributingKeepsValid(w.attributed[1], AnthropicSays(AnthropicWindowOf(h7, now), WEEK), consumer, now);
  }

  lemma CodexKeepsRanges(w: Windows, h1: CodexHeaders, h2: CodexHeaders, consumer: Consumer, now: u64)
    requires InRanges(w)
    ensures InRanges(Captured(w, Codex(h1, h2), consumer, now))
  {
    CodexReadsInRange(h1, now);
    CodexReadsInRange(h2, now);
    AttributingKeepsValid(w.attributed[2], CodexSays(CodexWindowOf(h1, now), now), consumer, now);
    AttributingKeepsValid(w.attributed[3], CodexSays(CodexWindowOf(h2, now), now), consumer, now);
  }

  lemma CapturingKeepsRanges(w: Windows, h: Headers, consumer: Consumer, now: u64)
    requires InRanges(w)
    ensures InRanges(Captured(w, h, consumer, now))
  {
    match h {
      case Anthropic(h5, h7) => AnthropicKeepsRanges(w, h5, h7, consumer, now);
      case Codex(h1, h2) => CodexKeepsRanges(w, h1, h2, consumer, now);
      case Mistral =>
    }
  }

  lemma RestartingKeepsRanges(w: Windows, now: u64)
    requires InRanges(w) && Invalid(w).None?
    ensures InRanges(Restarted(w, now))
  {
  }

  lemma RestartingKeepsFit(w: Windows, now: u64)
    requires Fits(w) && Invalid(w).None?
    ensures Fits(Restarted(w, now))
  {
  }

  lemma CapturingKeepsFit(w: Windows, h: Headers, consumer: Consumer, now: u64)
    requires Fits(w) && ReportFits(h, now)
    ensures Fits(Captured(w, h, consumer, now))
  {
  }

  // ---------------------------------------------------------------------
  // Restarts are transparent.

  predicate SameAnthropic(a: Option<AnthropicWindow>, b: Option<AnthropicWindow>) {
    if a.Some? && b.Some?
    then a.value.utilization == b.value.utilization && a.value.reset == b.value.reset && a.value.status == b.value.status
    else a == b
  }

  predicate SameCodex(a: Option<CodexWindow>, b: Option<CodexWindow>) {
    if a.Some? && b.Some?
    then a.value.usedPercent == b.value.usedPercent && a.value.minutes == b.value.minutes && AbsoluteReset(a) == AbsoluteReset(b)
    else a == b
  }

  /** All but how old the readings are is the same. */
  predicate Alike(a: Windows, b: Windows) {
    && SameAnthropic(a.fiveHour, b.fiveHour) && SameAnthropic(a.sevenDay, b.sevenDay)
    && SameCodex(a.primary, b.primary) && SameCodex(a.secondary, b.secondary)
    && forall i :: 0 <= i < 4 ==> EssenceOf(a.attributed[i]) == EssenceOf(b.attributed[i])
  }

  lemma AttributedSurvives(window: Option<Attributed>, now: u64)
    ensures EssenceOf(RestoredAttributed(ClampedAttributed(window, now), now)) == EssenceOf(window)
  {
  }

  lemma AnthropicSurvives(window: Option<AnthropicWindow>, now: u64)
    ensures SameAnthropic(MarkAnthropic(ClampedAnthropic(window, now)), window)
  {
  }

  lemma CodexSurvives(window: Option<CodexWindow>, now: u64)
    requires ResetFits(window)
    ensures SameCodex(MarkCodex(ClampedCodex(window, now)), window)
  {
  }

  lemma RestartIsTransparent(w: Windows, now: u64)
    requires Invalid(w).None?
    ensures Alike(Restarted(w, now), w)
  {
    ValidFits(w);
    AnthropicSurvives(w.fiveHour, now);
    AnthropicSurvives(w.sevenDay, now);
    CodexSurvives(w.primary, now);
    CodexSurvives(w.secondary, now);
    forall i | 0 <= i < 4 {
      AttributedSurvives(w.attributed[i], now);
    }
  }

  /** A window taken up is marked as restored now, and was observed no later. */
  lemma RestartDatesWindows(w: Windows, now: u64)
    requires Invalid(w).None?
    ensures var r := Restarted(w, now);
            && (r.fiveHour.Some? ==> r.fiveHour.value.restored && r.fiveHour.value.observedAt == Min(w.fiveHour.value.observedAt, now))
            && (r.sevenDay.Some? ==> r.sevenDay.value.restored && r.sevenDay.value.observedAt == Min(w.sevenDay.value.observedAt, now))
            && (r.primary.Some? ==> r.primary.value.restored && r.primary.value.observedAt == Min(w.primary.value.observedAt, now))
            && (r.secondary.Some? ==> r.secondary.value.restored && r.secondary.value.observedAt == Min(w.secondary.value.observedAt, now))
            && forall i :: 0 <= i < 4 && r.attributed[i].Some? ==>
                 var a := r.attributed[i].value;
                 a.restored && a.loadedAt == now && a.observedAt == Min(w.attributed[i].value.observedAt, now)
  {
    RestartIsTransparent(w, now);
  }

  lemma AttributingIsAlike(a: Option<Attributed>, b: Option<Attributed>, said: Said, consumer: Consumer, now: u64)
    requires EssenceOf(a) == EssenceOf(b)
    ensures EssenceOf(Attributing(a, said, consumer, now)) == EssenceOf(Attributing(b, said, consumer, now))
  {
    if said.Reads? {
      ChargingSeesEssence(a, b, said.reading, consumer, now);
    }
  }

  lemma CapturesAreAlike(a: Windows, b: Windows, h: Headers, consumer: Consumer, now: u64)
    requires Alike(a, b)
    ensures Alike(Captured(a, h, consumer, now), Captured(b, h, consumer, now))
  {
    match h {
      case Anthropic(h5, h7) =>
        AttributingIsAlike(a.attributed[0], b.attributed[0], AnthropicSays(AnthropicWindowOf(h5, now), FIVE_HOURS), consumer, now);
        AttributingIsAlike(a.attributed[1], b.attributed[1], AnthropicSays(AnthropicWindowOf(h7, now), WEEK), consumer, now);
      case Codex(h1, h2) =>
        AttributingIsAlike(a.attributed[2], b.attributed[2], CodexSays(CodexWindowOf(h1, now), now), consumer, now);
        AttributingIsAlike(a.attributed[3], b.attributed[3], CodexSays(CodexWindowOf(h2, now), now), consumer, now);
      case Mistral =>
    }
  }

  lemma AlikeIsTransitive(a: Windows, b: Windows, c: Windows)
    requires Alike(a, b) && Alike(b, c)
    ensures Alike(a, c)
  {
  }

  lemma {:induction false} CapturingsAreAlike(a: Windows, b: Windows, cs: seq<Capture>)
    requires Alike(a, b)
    ensures Alike(Exec(a, cs), Exec(b, cs))
  {
    if cs != [] {
      var n := |cs| - 1;
      CapturingsAreAlike(a, b, cs[..n]);
      CapturesAreAlike(Exec(a, cs[..n]), Exec(b, cs[..n]), cs[n].headers, cs[n].consumer, cs[n].now);
    }
  }

  lemma {:induction false} ExecInTwo(w: Windows, a: seq<Capture>, b: seq<Capture>)
    ensures Exec(w, a + b) == Exec(Exec(w, a), b)
  {
    if b == [] {
      assert a + b == a;
    } else {
      assert (a + b)[..|a + b| - 1] == a + b[..|b| - 1];
      ExecInTwo(w, a, b[..|b| - 1]);
    }
  }
}
