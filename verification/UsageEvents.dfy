/**
 What the tap reads of the events a provider sends, in bytes (credential-proxy).

 Module `UsageTaps` shows that the tap logs what its lines report. Here a line
 is written out: `data:`, some JSON and the blanks around them. Of a stream of
 such lines the tap logs the largest of each count over their JSON, and nothing
 of other lines.
 */
module UsageEvents {
  import opened Wrappers
  import opened Numbers
  import opened UsageTaps

  predicate Blanks(text: Bytes) {
    forall k :: 0 <= k < |text| ==> text[k] == 32 || text[k] == 9 || text[k] == 10 || text[k] == 12 || text[k] == 13
  }

  /** The bytes have the word "usage" in them. */
  ghost predicate HasUsage(text: Bytes) {
    exists i :: UsageAt(text, i)
  }

  predicate UsageAt(text: Bytes, i: int) {
    0 <= i <= |text| - 5 && text[i..i + 5] == [117, 115, 97, 103, 101]
  }

  // ---------------------------------------------------------------------
  // One line.

  lemma MentionsExactly(text: Bytes)
    ensures Mentions(text, USAGE) <==> HasUsage(text)
  {
    if i :| 0 <= i <= |text| && USAGE <= text[i..] {
      assert text[i..i + 5] == text[i..][..5] == USAGE;
      assert UsageAt(text, i);
    }
    if i :| UsageAt(text, i) {
      assert text[i..][..5] == text[i..i + 5] == USAGE;
    }
  }

  lemma HasUsageInside(a: Bytes, text: Bytes, b: Bytes)
    requires HasUsage(text)
    ensures HasUsage(a + text + b)
  {
    var i :| UsageAt(text, i);
    assert (a + text + b)[|a| + i..|a| + i + 5] == text[i..i + 5];
    assert UsageAt(a + text + b, |a| + i);
  }

  lemma {:induction false} StartIsTrimmed(a: Bytes, text: Bytes)
    requires Blanks(a) && text != [] && !Blanks([text[0]])
    ensures TrimStart(a + text) == text
  {
    assert [text[0]][0] == text[0];
    if a == [] {
      assert a + text == text;
    } else {
      assert (a + text)[1..] == a[1..] + text;
      StartIsTrimmed(a[1..], text);
    }
  }

  lemma {:induction false} EndIsTrimmed(text: Bytes, b: Bytes)
    requires Blanks(b) && text != [] && !Blanks([text[|text| - 1]])
    ensures TrimEnd(text + b) == text
  {
    assert [text[|text| - 1]][0] == text[|text| - 1];
    if b == [] {
      assert text + b == text;
    } else {
      var n := |b| - 1;
      assert (text + b)[..|text + b| - 1] == text + b[..n];
      assert (text + b)[|text + b| - 1] == b[n];
      EndIsTrimmed(text, b[..n]);
    }
  }

  /** Text that begins and ends in no blank. */
  predicate Trimmed(text: Bytes) {
    text != [] && !Blanks([text[0]]) && !Blanks([text[|text| - 1]])
  }

  lemma BothEndsAreTrimmed(a: Bytes, text: Bytes, b: Bytes)
    requires Blanks(a) && Trimmed(text) && Blanks(b)
    ensures TrimEnd(TrimStart(a + text + b)) == text
  {
    assert a + text + b == a + (text + b) && (text + b)[0] == text[0];
    StartIsTrimmed(a, text + b);
    EndIsTrimmed(text, b);
  }

  /** Text without the word reports nothing, whatever the parser makes of it. */
  lemma ReportedOfOther(parse: Parser, text: Bytes)
    requires !HasUsage(text)
    ensures Reported(parse, text) == None
  {
    MentionsExactly(text);
  }

  /** Text with the word reports what the parser makes of it without the blanks around it and without `data:`. */
  lemma ReportedOfText(parse: Parser, a: Bytes, text: Bytes, b: Bytes)
    requires Blanks(a) && Trimmed(text) && Blanks(b) && HasUsage(text)
    ensures Reported(parse, a + text + b) == parse(if [100, 97, 116, 97, 58] <= text then text[5..] else text)
  {
    HasUsageInside(a, text, b);
    MentionsExactly(a + text + b);
    BothEndsAreTrimmed(a, text, b);
  }

  /** A line of an event stream reports what its JSON does. */
  lemma ReportedOfEvent(parse: Parser, a: Bytes, json: Bytes, b: Bytes)
    requires Blanks(a) && Blanks(b) && json != [] && !Blanks([json[|json| - 1]]) && HasUsage(json)
    ensures Reported(parse, a + [100, 97, 116, 97, 58] + json + b) == parse(json)
  {
    var data: Bytes := [100, 97, 116, 97, 58];
    var text := data + json;
    assert text[0] == 100 && text[|text| - 1] == json[|json| - 1];
    assert [text[0]][0] == 100;
    HasUsageInside(data, json, []);
    assert data + json + [] == text;
    assert data <= text && text[5..] == json;
    ReportedOfText(parse, a, text, b);
    assert a + text + b == a + data + json + b;
  }

  // ---------------------------------------------------------------------
  // A stream of lines.

  datatype Line = Event(before: Bytes, json: Bytes, after: Bytes) | Other(text: Bytes) {
    function Bytes(): Bytes {
      match this
      case Event(before, json, after) => before + [100, 97, 116, 97, 58] + json + after + [10]
      case Other(text) => text + [10]
    }

    /** An event that is not too long to hold, or a line that is none or too long. */
    ghost predicate Valid() {
      match this
      case Event(before, json, after) =>
        && Blanks(before) && Blanks(after) && 10 !in before && 10 !in json && 10 !in after
        && json != [] && !Blanks([json[|json| - 1]]) && HasUsage(json) && |Bytes()| <= 1_048_576
      case Other(text) => 10 !in text && (HasUsage(text) ==> |Bytes()| > 1_048_576)
    }

    function ReportedBy(parse: Parser): Option<Tokens> {
      if Event? then parse(json) else None
    }
  }

  function Stream(lines: seq<Line>): Bytes {
    if lines == [] then [] else Stream(lines[..|lines| - 1]) + lines[|lines| - 1].Bytes()
  }

  lemma HasUsageBeforeNewline(text: Bytes)
    requires HasUsage(text + [10])
    ensures HasUsage(text)
  {
    var i :| UsageAt(text + [10], i);
    assert (text + [10])[i..i + 5][4] == (text + [10])[i + 4];
    assert text[i..i + 5] == (text + [10])[i..i + 5];
    assert UsageAt(text, i);
  }

  lemma HeldIsReported(parse: Parser, line: Line)
    requires line.Valid()
    ensures Held(parse, line.Bytes()) == line.ReportedBy(parse)
  {
    match line
    case Event(before, json, after) =>
      ReportedOfEvent(parse, before, json, after + [10]);
      assert line.Bytes() == before + [100, 97, 116, 97, 58] + json + (after + [10]);
    case Other(text) =>
      if HasUsage(text + [10]) {
        HasUsageBeforeNewline(text);
      } else {
        ReportedOfOther(parse, text + [10]);
      }
  }

  lemma IsLineOf(line: Line)
    requires line.Valid()
    ensures IsLine(line.Bytes())
  {
    var text := line.Bytes();
    match line
    case Event(before, json, after) =>
      assert text[..|text| - 1] == before + [100, 97, 116, 97, 58] + json + after;
    case Other(t) =>
      assert text[..|text| - 1] == t;
  }

  ghost predicate AllValid(lines: seq<Line>) {
    forall i :: 0 <= i < |lines| ==> lines[i].Valid()
  }

  ghost predicate EndsInLines(text: Bytes, lines: seq<Line>) {
    && Tail(text) == [] && |Ended(text)| == |lines|
    && forall i :: 0 <= i < |lines| ==> Ended(text)[i] == lines[i].Bytes()
  }

  lemma OneMoreLine(text: Bytes, lines: seq<Line>, line: Line)
    requires EndsInLines(text, lines) && line.Valid()
    ensures EndsInLines(text + line.Bytes(), lines + [line])
  {
    IsLineOf(line);
    AppendingLine(text, line.Bytes());
    assert Tail(text) + line.Bytes() == line.Bytes();
  }

  lemma {:induction false} StreamEndsInLines(lines: seq<Line>)
    requires AllValid(lines)
    ensures EndsInLines(Stream(lines), lines)
  {
    if lines != [] {
      var n := |lines| - 1;
      StreamEndsInLines(lines[..n]);
      OneMoreLine(Stream(lines[..n]), lines[..n], lines[n]);
      assert lines[..n] + [lines[n]] == lines;
    }
  }

  ghost predicate SomeReport(parse: Parser, lines: seq<Line>, i: int) {
    0 <= i < |lines| && lines[i].ReportedBy(parse).Some?
  }

  /** `n` is the largest of a count over the events whose JSON reports one. */
  ghost predicate LargestOf(parse: Parser, lines: seq<Line>, count: Count, n: u64) {
    && (exists i :: SomeReport(parse, lines, i) && count.Of(lines[i].ReportedBy(parse).value) == n)
    && (forall i :: SomeReport(parse, lines, i) ==> count.Of(lines[i].ReportedBy(parse).value) <= n)
  }

  lemma TextsReport(parse: Parser, lines: seq<Line>, i: nat)
    requires AllValid(lines) && i < |Texts(true, Stream(lines))|
    ensures |Texts(true, Stream(lines))| == |lines| + 1
    ensures Held(parse, Texts(true, Stream(lines))[i]) == if i < |lines| then lines[i].ReportedBy(parse) else None
  {
    StreamEndsInLines(lines);
    if i < |lines| {
      assert Texts(true, Stream(lines))[i] == lines[i].Bytes();
      HeldIsReported(parse, lines[i]);
    } else {
      assert Texts(true, Stream(lines))[i] == [];
      ReportedOfOther(parse, []);
    }
  }

  lemma ReportsAreOfEvents(parse: Parser, lines: seq<Line>)
    requires AllValid(lines)
    ensures forall i :: Reports(parse, Texts(true, Stream(lines)), i) <==> SomeReport(parse, lines, i)
    ensures forall i :: SomeReport(parse, lines, i) ==>
              Reports(parse, Texts(true, Stream(lines)), i) &&
              Held(parse, Texts(true, Stream(lines))[i]) == lines[i].ReportedBy(parse)
  {
    StreamEndsInLines(lines);
    var texts := Texts(true, Stream(lines));
    forall i | 0 <= i <= |lines|
      ensures Held(parse, texts[i]) == if i < |lines| then lines[i].ReportedBy(parse) else None
    {
      TextsReport(parse, lines, i);
    }
  }

  /** What the tap logs, fed these chunks from the first and then dropped. */
  function Logged(parse: Parser, events: bool, chunks: seq<Bytes>): Option<Tokens> {
    Scanned(parse, FedAll(parse, events, chunks)).usage
  }

  /**
   However a stream of lines was cut into chunks, the tap logs the largest of
   each count over the JSON of its events, and none exactly if no event's JSON
   reports any.
   */
  lemma StreamIsRead(parse: Parser, lines: seq<Line>, chunks: seq<Bytes>, count: Count)
    requires AllValid(lines) && Joined(chunks) == Stream(lines)
    ensures var logged := Logged(parse, true, chunks);
            if logged.Some? then LargestOf(parse, lines, count, count.Of(logged.value))
            else forall i :: !SomeReport(parse, lines, i)
  {
    var texts := Texts(true, Stream(lines));
    TapReadsTheBytes(parse, true, chunks);
    MergedIsLargest(parse, texts, count);
    ReportsAreOfEvents(parse, lines);
    var logged := Logged(parse, true, chunks);
    if logged.Some? {
      var n := count.Of(logged.value);
      var i :| Reports(parse, texts, i) && count.Of(Held(parse, texts[i]).value) == n;
      assert SomeReport(parse, lines, i);
    }
  }

  /** Of a document that is not too long to hold, the tap logs what its JSON reports. */
  lemma DocumentIsRead(parse: Parser, a: Bytes, json: Bytes, b: Bytes, chunks: seq<Bytes>)
    requires Blanks(a) && Trimmed(json) && Blanks(b) && HasUsage(json) && !([100, 97, 116, 97, 58] <= json)
    requires Joined(chunks) == a + json + b && |a + json + b| <= 1_048_576
    ensures Logged(parse, false, chunks) == parse(json)
  {
    var text := a + json + b;
    TapReadsTheBytes(parse, false, chunks);
    MergedOneMore(parse, [], text);
    assert [] + [text] == [text];
    ReportedOfText(parse, a, json, b);
  }
}
