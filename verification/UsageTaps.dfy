/**
 Reading the usage out of a response as it is forwarded (credential-proxy).

 A response arrives in chunks that end anywhere. The tap holds at most one
 event, a line, and reads the tokens it reports. The lemmas show that what it
 has read at the end depends on the bytes alone: the largest of each count over
 the lines that are not too long to hold. What a line's JSON reports is a
 parameter.
 */
module UsageTaps {
  import opened Wrappers
  import opened Numbers

  newtype Byte = b: int | 0 <= b < 256

  type Bytes = seq<Byte>

  /** The largest event or document held. */
  const MAX_USAGE_EVENT: nat := 1_048_576

  const NEWLINE: Byte := 10

  datatype Tokens = Tokens(input: u64, cached: u64, cacheWrite: u64, output: u64)

  /** What the JSON in some bytes reports, if they are JSON that reports any. */
  type Parser = Bytes -> Option<Tokens>

  function Merged(a: Tokens, b: Tokens): Tokens {
    Tokens(Max(a.input, b.input), Max(a.cached, b.cached), Max(a.cacheWrite, b.cacheWrite), Max(a.output, b.output))
  }

  function Merge(a: Option<Tokens>, b: Option<Tokens>): Option<Tokens> {
    if a.Some? && b.Some? then Some(Merged(a.value, b.value)) else if b.Some? then b else a
  }

  /** "usage" and "data:" in ASCII. */
  const USAGE: Bytes := [117, 115, 97, 103, 101]
  const DATA: Bytes := [100, 97, 116, 97, 58]

  predicate Mentions(text: Bytes, word: Bytes) {
    exists i :: 0 <= i <= |text| && word <= text[i..]
  }

  predicate Blank(b: Byte) {
    b == 32 || b == 9 || b == 10 || b == 12 || b == 13
  }

  function TrimStart(text: Bytes): Bytes {
    if text != [] && Blank(text[0]) then TrimStart(text[1..]) else text
  }

  function TrimEnd(text: Bytes): Bytes {
    if text != [] && Blank(text[|text| - 1]) then TrimEnd(text[..|text| - 1]) else text
  }

  function WithoutPrefix(text: Bytes, prefix: Bytes): Bytes {
    if prefix <= text then text[|prefix|..] else text
  }

  /** What a whole event or document reports. */
  function Reported(parse: Parser, text: Bytes): Option<Tokens> {
    if Mentions(text, USAGE) then parse(WithoutPrefix(TrimEnd(TrimStart(text)), DATA)) else None
  }

  /** The same of one that is skipped if it is too large to hold. */
  function Held(parse: Parser, text: Bytes): Option<Tokens> {
    if |text| <= MAX_USAGE_EVENT then Reported(parse, text) else None
  }

  // ---------------------------------------------------------------------
  // The lines of some bytes.

  /** The end of the bytes, after the last newline. */
  function Tail(text: Bytes): Bytes {
    if text == [] || text[|text| - 1] == NEWLINE then [] else Tail(text[..|text| - 1]) + [text[|text| - 1]]
  }

  /** The lines that a newline ends, with it. */
  function Ended(text: Bytes): seq<Bytes> {
    if text == [] then []
    else
      var n := |text| - 1;
      if text[n] == NEWLINE then Ended(text[..n]) + [Tail(text[..n]) + [NEWLINE]] else Ended(text[..n])
  }

  function Joined(lines: seq<Bytes>): Bytes {
    if lines == [] then [] else Joined(lines[..|lines| - 1]) + lines[|lines| - 1]
  }

  predicate NoNewline(text: Bytes) {
    NEWLINE !in text
  }

  predicate IsLine(text: Bytes) {
    text != [] && text[|text| - 1] == NEWLINE && NoNewline(text[..|text| - 1])
  }

  lemma {:induction false} TailHasNoNewline(text: Bytes)
    ensures NoNewline(Tail(text))
  {
    if text != [] && text[|text| - 1] != NEWLINE {
      TailHasNoNewline(text[..|text| - 1]);
    }
  }

  lemma {:induction false} EndedAreLines(text: Bytes)
    ensures forall i :: 0 <= i < |Ended(text)| ==> IsLine(Ended(text)[i])
  {
    if text != [] {
      var n := |text| - 1;
      EndedAreLines(text[..n]);
      TailHasNoNewline(text[..n]);
      var line := Tail(text[..n]) + [NEWLINE];
      assert line[..|line| - 1] == Tail(text[..n]);
    }
  }

  lemma JoinedOneMore(lines: seq<Bytes>, line: Bytes)
    ensures Joined(lines + [line]) == Joined(lines) + line
  {
    assert (lines + [line])[..|lines|] == lines;
  }

  lemma {:induction false} JoinedBack(text: Bytes)
    ensures Joined(Ended(text)) + Tail(text) == text
  {
    if text != [] {
      var n := |text| - 1;
      JoinedBack(text[..n]);
      JoinedOneMore(Ended(text[..n]), Tail(text[..n]) + [NEWLINE]);
      assert text == text[..n] + [text[n]];
    }
  }

  /** The lines and the tail are the bytes, cut after each newline and nowhere else. */
  lemma LinesAreTheBytes(text: Bytes)
    ensures Joined(Ended(text)) + Tail(text) == text
    ensures NoNewline(Tail(text))
    ensures forall i :: 0 <= i < |Ended(text)| ==> IsLine(Ended(text)[i])
  {
    TailHasNoNewline(text);
    EndedAreLines(text);
    JoinedBack(text);
  }

  lemma {:induction false} AppendingToTail(text: Bytes, piece: Bytes)
    requires NoNewline(piece)
    ensures Tail(text + piece) == Tail(text) + piece
    ensures Ended(text + piece) == Ended(text)
  {
    if piece == [] {
      assert text + piece == text;
    } else {
      var n := |piece| - 1;
      assert piece[n] in piece;
      assert (text + piece)[..|text + piece| - 1] == text + piece[..n];
      AppendingToTail(text, piece[..n]);
    }
  }

  lemma AppendingLine(text: Bytes, piece: Bytes)
    requires IsLine(piece)
    ensures Tail(text + piece) == []
    ensures Ended(text + piece) == Ended(text) + [Tail(text) + piece]
  {
    var n := |piece| - 1;
    assert (text + piece)[..|text + piece| - 1] == text + piece[..n];
    AppendingToTail(text, piece[..n]);
    assert piece == piece[..n] + [NEWLINE];
    assert Tail(text) + piece == Tail(text) + piece[..n] + [NEWLINE];
  }

  // ---------------------------------------------------------------------
  // The tap.

  datatype State = State(pending: Bytes, skipping: bool, usage: Option<Tokens>)

  const NEW := State([], false, None)

  function Scanned(parse: Parser, s: State): State {
    State([], false, if s.skipping then s.usage else Merge(s.usage, Reported(parse, s.pending)))
  }

  function Taken(s: State, piece: Bytes): State {
    if |s.pending| + |piece| > MAX_USAGE_EVENT then s.(skipping := true, pending := [])
    else if !s.skipping then s.(pending := s.pending + piece)
    else s
  }

  /** What one piece of a chunk does: a line or the end of the chunk, or all of it if it is no event stream. */
  function Pieced(parse: Parser, events: bool, s: State, piece: Bytes): State {
    var t := Taken(s, piece);
    if events && piece != [] && piece[|piece| - 1] == NEWLINE then Scanned(parse, t) else t
  }

  function FirstNewline(chunk: Bytes): (i: nat)
    ensures i <= |chunk| && NoNewline(chunk[..i]) && (i < |chunk| ==> chunk[i] == NEWLINE)
  {
    if chunk == [] || chunk[0] == NEWLINE then 0
    else
      var i := 1 + FirstNewline(chunk[1..]);
      assert chunk[..i] == [chunk[0]] + chunk[1..][..i - 1];
      i
  }

  /** The chunk cut after each newline. */
  function Pieces(chunk: Bytes): seq<Bytes> {
    if chunk == [] then []
    else
      var i := FirstNewline(chunk);
      if i == |chunk| then [chunk] else [chunk[..i + 1]] + Pieces(chunk[i + 1..])
  }

  function PiecesOf(events: bool, chunk: Bytes): seq<Bytes> {
    if events then Pieces(chunk) else [chunk]
  }

  function AllPieced(parse: Parser, events: bool, s: State, pieces: seq<Bytes>): State {
    if pieces == [] then s
    else Pieced(parse, events, AllPieced(parse, events, s, pieces[..|pieces| - 1]), pieces[|pieces| - 1])
  }

  function Fed(parse: Parser, events: bool, s: State, chunk: Bytes): State {
    AllPieced(parse, events, s, PiecesOf(events, chunk))
  }

  function FedAll(parse: Parser, events: bool, chunks: seq<Bytes>): State {
    if chunks == [] then NEW
    else Fed(parse, events, FedAll(parse, events, chunks[..|chunks| - 1]), chunks[|chunks| - 1])
  }

  /** The tap as the source updates it, in place. */
  class UsageTap {
    const events: bool
    const parse: Parser
    var pending: Bytes
    var skipping: bool
    var usage: Option<Tokens>

    constructor (parse: Parser, events: bool)
      ensures this.parse == parse && this.events == events && View() == NEW
    {
      this.parse, this.events := parse, events;
      pending, skipping, usage := [], false, None;
    }

    ghost function View(): State
      reads this
    {
      State(pending, skipping, usage)
    }

    method Feed(chunk: Bytes)
      modifies this
      ensures View() == Fed(parse, events, old(View()), chunk)
    {
      var pieces := PiecesOf(events, chunk);
      for i := 0 to |pieces|
        invariant View() == AllPieced(parse, events, old(View()), pieces[..i])
      {
        assert pieces[..i + 1][..i] == pieces[..i];
        var piece := pieces[i];
        if |pending| + |piece| > MAX_USAGE_EVENT {
          skipping := true;
          pending := [];
        } else if !skipping {
          pending := pending + piece;
        }
        if events && piece != [] && piece[|piece| - 1] == NEWLINE {
          Scan();
        }
      }
      assert pieces[..|pieces|] == pieces;
    }

    method Scan()
      modifies this
      ensures View() == Scanned(parse, old(View()))
    {
      var text, skipped := pending, skipping;
      pending, skipping := [], false;
      if skipped || !Mentions(text, USAGE) {
        return;
      }
      var tokens := parse(WithoutPrefix(TrimEnd(TrimStart(text)), DATA));
      if tokens.None? {
        return;
      }
      usage := if usage.Some? then Some(Merged(usage.value, tokens.value)) else tokens;
    }

    /** The last scan, when the response has ended however it did. */
    method Drop() returns (logged: Option<Tokens>)
      modifies this
      ensures logged == Scanned(parse, old(View())).usage
    {
      Scan();
      logged := usage;
    }
  }

  // ---------------------------------------------------------------------
  // What the tap has read of some bytes, however they were cut.

  function MergedAll(parse: Parser, lines: seq<Bytes>): Option<Tokens> {
    if lines == [] then None
    else Merge(MergedAll(parse, lines[..|lines| - 1]), Held(parse, lines[|lines| - 1]))
  }

  /** A line, or its beginning, as the tap holds it. */
  function Holding(text: Bytes, usage: Option<Tokens>): State {
    if |text| <= MAX_USAGE_EVENT then State(text, false, usage) else State([], true, usage)
  }

  /** The tap's state once it has been fed `text`. */
  function StateOf(parse: Parser, events: bool, text: Bytes): State {
    if events then Holding(Tail(text), MergedAll(parse, Ended(text))) else Holding(text, None)
  }

  lemma TakingHolds(text: Bytes, usage: Option<Tokens>, piece: Bytes)
    ensures Taken(Holding(text, usage), piece) == Holding(text + piece, usage)
  {
  }

  lemma ScanningReports(parse: Parser, text: Bytes, usage: Option<Tokens>)
    ensures Scanned(parse, Holding(text, usage)) == State([], false, Merge(usage, Held(parse, text)))
  {
  }

  lemma MergedOneMore(parse: Parser, lines: seq<Bytes>, line: Bytes)
    ensures MergedAll(parse, lines + [line]) == Merge(MergedAll(parse, lines), Held(parse, line))
  {
    assert (lines + [line])[..|lines|] == lines;
  }

  predicate IsPiece(piece: Bytes) {
    IsLine(piece) || (piece != [] && NoNewline(piece))
  }

  lemma OnePiece(parse: Parser, text: Bytes, piece: Bytes)
    requires IsPiece(piece)
    ensures Pieced(parse, true, StateOf(parse, true, text), piece) == StateOf(parse, true, text + piece)
  {
    var usage := MergedAll(parse, Ended(text));
    TakingHolds(Tail(text), usage, piece);
    if IsLine(piece) {
      AppendingLine(text, piece);
      ScanningReports(parse, Tail(text) + piece, usage);
      MergedOneMore(parse, Ended(text), Tail(text) + piece);
    } else {
      AppendingToTail(text, piece);
      assert piece[|piece| - 1] in piece;
    }
  }

  lemma FirstIsLine(chunk: Bytes)
    requires FirstNewline(chunk) < |chunk|
    ensures IsLine(chunk[..FirstNewline(chunk) + 1])
  {
    var i := FirstNewline(chunk);
    assert chunk[..i + 1][..i] == chunk[..i];
  }

  lemma {:induction false} PiecesAreTheChunk(chunk: Bytes)
    ensures Joined(Pieces(chunk)) == chunk
    ensures forall i :: 0 <= i < |Pieces(chunk)| ==> IsPiece(Pieces(chunk)[i])
    decreases |chunk|
  {
    if chunk != [] {
      var i := FirstNewline(chunk);
      if i == |chunk| {
        assert chunk[..i] == chunk;
        assert Joined([chunk]) == Joined([]) + chunk by { assert [chunk][..0] == []; }
      } else {
        PiecesAreTheChunk(chunk[i + 1..]);
        JoinedFirst(chunk[..i + 1], Pieces(chunk[i + 1..]));
        FirstIsLine(chunk);
        assert chunk == chunk[..i + 1] + chunk[i + 1..];
      }
    }
  }

  lemma {:induction false} JoinedFirst(first: Bytes, rest: seq<Bytes>)
    ensures Joined([first] + rest) == first + Joined(rest)
  {
    if rest == [] {
      assert [first] + rest == [first] && [first][..0] == [];
    } else {
      var n := |rest| - 1;
      JoinedFirst(first, rest[..n]);
      assert ([first] + rest)[..|[first] + rest| - 1] == [first] + rest[..n];
      assert first + Joined(rest[..n]) + rest[n] == first + (Joined(rest[..n]) + rest[n]);
    }
  }

  lemma {:induction false} ManyPieces(parse: Parser, text: Bytes, pieces: seq<Bytes>)
    requires forall i :: 0 <= i < |pieces| ==> IsPiece(pieces[i])
    ensures AllPieced(parse, true, StateOf(parse, true, text), pieces) == StateOf(parse, true, text + Joined(pieces))
  {
    if pieces == [] {
      assert text + Joined(pieces) == text;
    } else {
      var n := |pieces| - 1;
      ManyPieces(parse, text, pieces[..n]);
      OnePiece(parse, text + Joined(pieces[..n]), pieces[n]);
      Regrouped(text, Joined(pieces[..n]), pieces[n]);
    }
  }

  lemma Regrouped(a: Bytes, b: Bytes, c: Bytes)
    ensures a + b + c == a + (b + c)
  {
  }

  /** Feeding a chunk to a tap that was fed some bytes leaves it as one fed them all. */
  lemma FeedingAppends(parse: Parser, events: bool, text: Bytes, chunk: Bytes)
    ensures Fed(parse, events, StateOf(parse, events, text), chunk) == StateOf(parse, events, text + chunk)
  {
    if events {
      PiecesAreTheChunk(chunk);
      ManyPieces(parse, text, Pieces(chunk));
    } else {
      var s := StateOf(parse, events, text);
      TakingHolds(text, None, chunk);
      assert [chunk][..0] == [] && AllPieced(parse, events, s, []) == s;
      assert AllPieced(parse, events, s, [chunk]) == Pieced(parse, events, s, chunk);
    }
  }

  lemma {:induction false} ChunksDoNotMatter(parse: Parser, events: bool, chunks: seq<Bytes>)
    ensures FedAll(parse, events, chunks) == StateOf(parse, events, Joined(chunks))
  {
    if chunks == [] {
      assert Ended([]) == [];
    } else {
      var n := |chunks| - 1;
      ChunksDoNotMatter(parse, events, chunks[..n]);
      FeedingAppends(parse, events, Joined(chunks[..n]), chunks[n]);
    }
  }

  /** The lines of an event stream, its unended end included, or the one document. */
  function Texts(events: bool, text: Bytes): seq<Bytes> {
    if events then Ended(text) + [Tail(text)] else [text]
  }

  /**
   However a response was cut into chunks, the usage the tap logs is that of
   its bytes: the counts merged over its lines, or the one document, that are
   not too long to hold. And the tap never holds more than that.
   */
  lemma TapReadsTheBytes(parse: Parser, events: bool, chunks: seq<Bytes>)
    ensures Scanned(parse, FedAll(parse, events, chunks)).usage == MergedAll(parse, Texts(events, Joined(chunks)))
    ensures |FedAll(parse, events, chunks).pending| <= MAX_USAGE_EVENT
  {
    var text := Joined(chunks);
    ChunksDoNotMatter(parse, events, chunks);
    if events {
      ScanningReports(parse, Tail(text), MergedAll(parse, Ended(text)));
      MergedOneMore(parse, Ended(text), Tail(text));
    } else {
      ScanningReports(parse, text, None);
      MergedOneMore(parse, [], text);
      assert [] + [text] == [text];
    }
  }

  // ---------------------------------------------------------------------
  // What merging means: the largest of each count.

  datatype Count = Input | Cached | CacheWrite | Output {
    function Of(t: Tokens): u64 {
      match this
      case Input => t.input
      case Cached => t.cached
      case CacheWrite => t.cacheWrite
      case Output => t.output
    }
  }

  ghost predicate Reports(parse: Parser, lines: seq<Bytes>, i: int) {
    0 <= i < |lines| && Held(parse, lines[i]).Some?
  }

  /** `n` is the largest of a count over the lines that report one. */
  ghost predicate Largest(parse: Parser, lines: seq<Bytes>, count: Count, n: u64) {
    && (exists i :: Reports(parse, lines, i) && count.Of(Held(parse, lines[i]).value) == n)
    && (forall i :: Reports(parse, lines, i) ==> count.Of(Held(parse, lines[i]).value) <= n)
  }

  lemma LargestAfterOneMore(parse: Parser, lines: seq<Bytes>, line: Bytes, count: Count, n: u64)
    requires Largest(parse, lines, count, n)
    ensures Largest(parse, lines + [line], count,
                    if Held(parse, line).Some? then Max(n, count.Of(Held(parse, line).value)) else n)
  {
    var longer := lines + [line];
    assert longer[|lines|] == line;
    assert forall i :: 0 <= i < |lines| ==> longer[i] == lines[i];
    var j :| Reports(parse, lines, j) && count.Of(Held(parse, lines[j]).value) == n;
    assert Reports(parse, longer, j);
    if Held(parse, line).Some? {
      assert Reports(parse, longer, |lines|);
    }
    forall i | Reports(parse, longer, i)
      ensures count.Of(Held(parse, longer[i]).value) <=
              if Held(parse, line).Some? then Max(n, count.Of(Held(parse, line).value)) else n
    {
      if i < |lines| {
        assert Reports(parse, lines, i);
      }
    }
  }

  lemma LargestOfOne(parse: Parser, lines: seq<Bytes>, line: Bytes, count: Count)
    requires forall i :: !Reports(parse, lines, i)
    requires Held(parse, line).Some?
    ensures Largest(parse, lines + [line], count, count.Of(Held(parse, line).value))
  {
    var longer := lines + [line];
    assert longer[|lines|] == line && Reports(parse, longer, |lines|);
    forall i | 0 <= i < |lines|
      ensures !Reports(parse, longer, i)
    {
      assert longer[i] == lines[i] && !Reports(parse, lines, i);
    }
  }

  /** The merged usage has the largest of each count, and is none only if no line reports any. */
  lemma {:induction false} MergedIsLargest(parse: Parser, lines: seq<Bytes>, count: Count)
    ensures var merged := MergedAll(parse, lines);
            if merged.Some? then Largest(parse, lines, count, count.Of(merged.value))
            else forall i :: !Reports(parse, lines, i)
  {
    if lines != [] {
      var n := |lines| - 1;
      var before, last := lines[..n], lines[n];
      MergedIsLargest(parse, before, count);
      assert lines == before + [last];
      if MergedAll(parse, before).Some? {
        LargestAfterOneMore(parse, before, last, count, count.Of(MergedAll(parse, before).value));
      } else if Held(parse, last).Some? {
        LargestOfOne(parse, before, last, count);
      } else {
        assert forall i :: 0 <= i < n ==> before[i] == lines[i] && !Reports(parse, before, i);
      }
    }
  }
}
