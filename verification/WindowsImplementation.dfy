/**
 The windows as the source updates them, in place under their lock (usage.rs).
 Each method is proved to do exactly the step of module `WindowState`.
 */
module WindowsImplementation {
  import opened Wrappers
  import opened Numbers
  import opened Registry
  import opened Attribution
  import S = WindowState

  /** A window's index and what a response says of it, if anything. */
  datatype Item = Item(index: nat, reading: Option<Reading>)

  /** The windows once each item of `read` is charged, in order. */
  function Applied(windows: S.FourWindows, read: seq<Item>, consumer: Consumer, now: u64): S.FourWindows
    requires forall i :: 0 <= i < |read| ==> read[i].index < 4
  {
    if read == [] then windows
    else
      var before, last := Applied(windows, read[..|read| - 1], consumer, now), read[|read| - 1];
      before[last.index := match last.reading
                           case None => None
                           case Some(r) => Some(Charged(before[last.index], r, consumer, now))]
  }

  /** What was said of a window, as an item to charge or no item. */
  function ItemsOf(index: nat, said: S.Said): seq<Item> {
    match said
    case Silent => []
    case Absent => [Item(index, None)]
    case Reads(reading) => [Item(index, Some(reading))]
  }

  lemma AppliedTwo(windows: S.FourWindows, i: nat, a: S.Said, j: nat, b: S.Said, consumer: Consumer, now: u64)
    requires i < j < 4
    ensures Applied(windows, ItemsOf(i, a) + ItemsOf(j, b), consumer, now) ==
            windows[i := S.Attributing(windows[i], a, consumer, now)][j := S.Attributing(windows[j], b, consumer, now)]
  {
    AppliedOne(windows, i, a, consumer, now);
    AppliedMore(windows, ItemsOf(i, a), j, b, consumer, now);
  }

  lemma AppliedMore(windows: S.FourWindows, first: seq<Item>, j: nat, b: S.Said, consumer: Consumer, now: u64)
    requires j < 4 && forall i :: 0 <= i < |first| ==> first[i].index < 4
    ensures var before := Applied(windows, first, consumer, now);
            Applied(windows, first + ItemsOf(j, b), consumer, now) == before[j := S.Attributing(before[j], b, consumer, now)]
  {
    var second := ItemsOf(j, b);
    if second == [] {
      assert first + second == first;
    } else {
      assert (first + second)[..|first + second| - 1] == first;
    }
  }

  lemma AppliedOne(windows: S.FourWindows, i: nat, a: S.Said, consumer: Consumer, now: u64)
    requires i < 4
    ensures Applied(windows, ItemsOf(i, a), consumer, now) == windows[i := S.Attributing(windows[i], a, consumer, now)]
  {
    var items := ItemsOf(i, a);
    if items != [] {
      assert items[..|items| - 1] == [];
    }
  }

  lemma AppliedNext(windows: S.FourWindows, read: seq<Item>, n: nat, consumer: Consumer, now: u64)
    requires n < |read| && forall i :: 0 <= i < |read| ==> read[i].index < 4
    ensures Applied(windows, read[..n + 1], consumer, now) ==
            var before := Applied(windows, read[..n], consumer, now);
            before[read[n].index := match read[n].reading
                                    case None => None
                                    case Some(r) => Some(Charged(before[read[n].index], r, consumer, now))]
  {
    assert read[..n + 1][..n] == read[..n];
  }

  /** The windows a clamp reports: those observed later than `now`, and when they were. */
  function Later(name: string, observedAt: Option<u64>, now: u64): seq<(string, u64)> {
    if observedAt.Some? && observedAt.value > now then [(name, observedAt.value)] else []
  }

  const NAMES: seq<string> := ["attributed[0]", "attributed[1]", "attributed[2]", "attributed[3]"]

  function LaterAttributed(windows: S.FourWindows, n: nat, now: u64): seq<(string, u64)>
    requires n <= 4
  {
    if n == 0 then []
    else LaterAttributed(windows, n - 1, now) +
         Later(NAMES[n - 1], if windows[n - 1].Some? then Some(windows[n - 1].value.observedAt) else None, now)
  }

  function LaterAnthropic(a: Option<S.AnthropicWindow>, b: Option<S.AnthropicWindow>, now: u64): seq<(string, u64)> {
    Later("unified_5h", if a.Some? then Some(a.value.observedAt) else None, now) +
    Later("unified_7d", if b.Some? then Some(b.value.observedAt) else None, now)
  }

  function LaterCodex(a: Option<S.CodexWindow>, b: Option<S.CodexWindow>, now: u64): seq<(string, u64)> {
    Later("primary", if a.Some? then Some(a.value.observedAt) else None, now) +
    Later("secondary", if b.Some? then Some(b.value.observedAt) else None, now)
  }

  /** What a capture of Codex's headers makes of each field. */
  lemma CodexCaptured(w: S.Windows, h1: S.CodexHeaders, h2: S.CodexHeaders, consumer: Consumer, now: u64)
    ensures var first, second := S.CodexWindowOf(h1, now), S.CodexWindowOf(h2, now);
            S.Captured(w, S.Codex(h1, h2), consumer, now) ==
            S.Windows(w.fiveHour, w.sevenDay, S.CodexSlot(w.primary, first), S.CodexSlot(w.secondary, second),
                      Applied(w.attributed, ItemsOf(2, S.CodexSays(first, now)) + ItemsOf(3, S.CodexSays(second, now)), consumer, now))
  {
    var first, second := S.CodexWindowOf(h1, now), S.CodexWindowOf(h2, now);
    AppliedTwo(w.attributed, 2, S.CodexSays(first, now), 3, S.CodexSays(second, now), consumer, now);
  }

  class Windows {
    var fiveHour: Option<S.AnthropicWindow>
    var sevenDay: Option<S.AnthropicWindow>
    var primary: Option<S.CodexWindow>
    var secondary: Option<S.CodexWindow>
    var attributed: S.FourWindows

    constructor ()
      ensures View() == S.NO_WINDOWS
    {
      fiveHour, sevenDay, primary, secondary := None, None, None, None;
      attributed := [None, None, None, None];
    }

    ghost function View(): S.Windows
      reads this
    {
      S.Windows(fiveHour, sevenDay, primary, secondary, attributed)
    }

    method Capture(headers: S.Headers, consumer: Consumer, now: u64) returns (changed: bool)
      modifies this
      ensures View() == S.Captured(old(View()), headers, consumer, now)
      ensures changed == S.Changes(headers, now)
    {
      match headers {
        case Anthropic(h5, h7) => changed := CaptureAnthropic(h5, h7, consumer, now);
        case Codex(h1, h2) => changed := CaptureCodex(h1, h2, consumer, now);
        case Mistral => changed := false;
      }
    }

    method CaptureAnthropic(h5: S.AnthropicHeaders, h7: S.AnthropicHeaders, consumer: Consumer, now: u64)
      returns (changed: bool)
      modifies this`fiveHour, this`sevenDay, this`attributed
      ensures View() == S.Captured(old(View()), S.Anthropic(h5, h7), consumer, now)
      ensures changed == S.Changes(S.Anthropic(h5, h7), now)
    {
      var five, seven := S.AnthropicWindowOf(h5, now), S.AnthropicWindowOf(h7, now);
      var read := ReadAnthropic(0, five, S.FIVE_HOURS);
      var more := ReadAnthropic(1, seven, S.WEEK);
      AppliedTwo(attributed, 0, S.AnthropicSays(five, S.FIVE_HOURS), 1, S.AnthropicSays(seven, S.WEEK), consumer, now);
      Attribute(read + more, consumer, now);
      fiveHour := if five.Some? then five else fiveHour;
      sevenDay := if seven.Some? then seven else sevenDay;
      changed := five.Some? || seven.Some?;
    }

    method CaptureCodex(h1: S.CodexHeaders, h2: S.CodexHeaders, consumer: Consumer, now: u64) returns (changed: bool)
      modifies this`primary, this`secondary, this`attributed
      ensures View() == S.Captured(old(View()), S.Codex(h1, h2), consumer, now)
      ensures changed == S.Changes(S.Codex(h1, h2), now)
    {
      var first, second := S.CodexWindowOf(h1, now), S.CodexWindowOf(h2, now);
      var read, p := ReadCodex(2, primary, first, now);
      var more, q := ReadCodex(3, secondary, second, now);
      CodexCaptured(View(), h1, h2, consumer, now);
      Attribute(read + more, consumer, now);
      primary, secondary := p, q;
      changed := first.Some? || second.Some?;
    }

    method ReadAnthropic(index: nat, window: Option<S.AnthropicWindow>, secs: u64) returns (items: seq<Item>)
      ensures items == ItemsOf(index, S.AnthropicSays(window, secs))
    {
      items := [];
      if window.Some? && window.value.utilization.Some? && window.value.reset.Some? {
        items := [Item(index, Some(Reading(window.value.utilization.value * 100.0, window.value.reset.value, secs)))];
      }
    }

    method ReadCodex(index: nat, slot: Option<S.CodexWindow>, window: Option<S.CodexWindow>, now: u64)
      returns (items: seq<Item>, next: Option<S.CodexWindow>)
      ensures items == ItemsOf(index, S.CodexSays(window, now)) && next == S.CodexSlot(slot, window)
    {
      items, next := [], slot;
      if window.None? {
        return;
      }
      var w := window.value;
      if w.minutes == Some(0) {
        return [Item(index, None)], None;
      }
      if w.usedPercent.Some? && w.minutes.Some? && w.resetAfter.Some? {
        var reading := Reading(w.usedPercent.value, SatAdd(now, w.resetAfter.value), S.SatMul(w.minutes.value, 60));
        items := [Item(index, Some(reading))];
      }
      next := window;
    }

    /** Charge each window read, or drop it if the plan does not have it. */
    method Attribute(read: seq<Item>, consumer: Consumer, now: u64)
      requires forall i :: 0 <= i < |read| ==> read[i].index < 4
      modifies this`attributed
      ensures attributed == Applied(old(attributed), read, consumer, now)
    {
      for n := 0 to |read|
        invariant attributed == Applied(old(attributed), read[..n], consumer, now)
      {
        AppliedNext(old(attributed), read, n, consumer, now);
        var index, next := read[n].index, None;
        if read[n].reading.Some? {
          var charged := Charge(attributed[index], read[n].reading.value, consumer, now);
          next := Some(charged);
        }
        attributed := attributed[index := next];
      }
      assert read[..|read|] == read;
    }

    /** Take each window observed after `now` as observed now, and return each one's name and when it was. */
    method ClampObservedAt(now: u64) returns (clamped: seq<(string, u64)>)
      requires S.ResetFits(primary) && S.ResetFits(secondary)
      modifies this
      ensures View() == S.Clamped(old(View()), now)
      ensures clamped == LaterAnthropic(old(fiveHour), old(sevenDay), now) + LaterCodex(old(primary), old(secondary), now) +
                         LaterAttributed(old(attributed), 4, now)
    {
      var a := ClampAnthropic(now);
      var b := ClampCodex(now);
      var c := ClampAttributed(now);
      clamped := a + b + c;
      assert attributed == S.Clamped(old(View()), now).attributed;
    }

    method ClampAnthropic(now: u64) returns (clamped: seq<(string, u64)>)
      modifies this`fiveHour, this`sevenDay
      ensures fiveHour == S.ClampedAnthropic(old(fiveHour), now) && sevenDay == S.ClampedAnthropic(old(sevenDay), now)
      ensures clamped == LaterAnthropic(old(fiveHour), old(sevenDay), now)
    {
      clamped := [];
      if fiveHour.Some? && fiveHour.value.observedAt > now {
        clamped := clamped + [("unified_5h", fiveHour.value.observedAt)];
        fiveHour := Some(fiveHour.value.(observedAt := now));
      }
      if sevenDay.Some? && sevenDay.value.observedAt > now {
        clamped := clamped + [("unified_7d", sevenDay.value.observedAt)];
        sevenDay := Some(sevenDay.value.(observedAt := now));
      }
    }

    method ClampCodex(now: u64) returns (clamped: seq<(string, u64)>)
      requires S.ResetFits(primary) && S.ResetFits(secondary)
      modifies this`primary, this`secondary
      ensures primary == S.ClampedCodex(old(primary), now) && secondary == S.ClampedCodex(old(secondary), now)
      ensures clamped == LaterCodex(old(primary), old(secondary), now)
    {
      clamped := [];
      if primary.Some? && primary.value.observedAt > now {
        clamped := clamped + [("primary", primary.value.observedAt)];
        primary := ClampOne(primary.value, now);
      }
      if secondary.Some? && secondary.value.observedAt > now {
        clamped := clamped + [("secondary", secondary.value.observedAt)];
        secondary := ClampOne(secondary.value, now);
      }
    }

    method ClampOne(window: S.CodexWindow, now: u64) returns (clamped: Option<S.CodexWindow>)
      requires window.observedAt > now && S.ResetFits(Some(window))
      ensures clamped == S.ClampedCodex(Some(window), now)
    {
      var ahead := window.observedAt - now;
      var resetAfter := if window.resetAfter.Some? then Some(window.resetAfter.value + ahead) else None;
      clamped := Some(window.(observedAt := now, resetAfter := resetAfter));
    }

    method ClampAttributed(now: u64) returns (clamped: seq<(string, u64)>)
      modifies this`attributed
      ensures forall i :: 0 <= i < 4 ==> attributed[i] == S.ClampedAttributed(old(attributed)[i], now)
      ensures clamped == LaterAttributed(old(attributed), 4, now)
    {
      clamped := [];
      for n := 0 to 4
        invariant forall i :: 0 <= i < n ==> attributed[i] == S.ClampedAttributed(old(attributed)[i], now)
        invariant forall i :: n <= i < 4 ==> attributed[i] == old(attributed)[i]
        invariant clamped == LaterAttributed(old(attributed), n, now)
      {
        if attributed[n].Some? && attributed[n].value.observedAt > now {
          clamped := clamped + [(NAMES[n], attributed[n].value.observedAt)];
          attributed := attributed[n := Some(attributed[n].value.(observedAt := now))];
        }
      }
    }
  }
}
