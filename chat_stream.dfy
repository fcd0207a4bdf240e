/**
 * The AI-chat stream reader: the response body arrives in reads of
 * arbitrary size, is cut into lines at `\n`, and every complete line
 * starting `data: ` is a chunk of the answer, until a `data: [DONE]` line or
 * the end of the body.
 */
module ChatStream {
  import opened Wrappers
  import opened Text

  /** What `JSON.parse` makes of a data line. `NotJson` also covers JSON `null`, whose `.content` throws inside the same `try`. */
  datatype JsonData = NotJson | Parsed(content: Option<string>)

  /** The callbacks of `chatIAStream`, in the order they are made. */
  datatype StreamEvent = Chunk(text: string) | Done | Failed

  /** The concatenation of the decoded reads. */
  function Concat(received: seq<string>): string
  {
    if received == [] then "" else Concat(received[..|received| - 1]) + received[|received| - 1]
  }

  lemma {:induction false} ConcatAppend(a: seq<string>, b: seq<string>)
    ensures Concat(a + b) == Concat(a) + Concat(b)
    decreases |b|
  {
    if b == [] {
      assert a + b == a;
    } else {
      ConcatAppend(a, b[..|b| - 1]);
      assert (a + b)[..|a + b| - 1] == a + b[..|b| - 1];
    }
  }

  function Lines(s: string): (r: seq<string>)
    ensures |r| >= 1
  {
    SplitOn(s, "\n")
  }

  /** The lines ended by a `\n`. */
  function CompleteLines(s: string): seq<string>
  {
    Lines(s)[..|Lines(s)| - 1]
  }

  /** The text after the last `\n`, kept in the buffer for the next read. */
  function Pending(s: string): string
  {
    Lines(s)[|Lines(s)| - 1]
  }

  /** Splitting `x + y` at newlines: the complete lines of `x`, then the split of `x`'s pending text followed by `y`. */
  lemma {:induction false} SplitConcat(x: string, y: string)
    ensures Lines(x + y) == CompleteLines(x) + Lines(Pending(x) + y)
    decreases |x|
  {
    if x == [] {
      assert x + y == y;
    } else if x[..1] == "\n" {
      SplitConcat(x[1..], y);
      assert (x + y)[..1] == "\n";
      assert (x + y)[1..] == x[1..] + y;
    } else {
      SplitConcat(x[1..], y);
      SplitConcatChar(x, y);
    }
  }

  /** The step of `SplitConcat` for a first character that is not a newline. */
  lemma SplitConcatChar(x: string, y: string)
    requires x != [] && x[..1] != "\n"
    requires Lines(x[1..] + y) == CompleteLines(x[1..]) + Lines(Pending(x[1..]) + y)
    ensures Lines(x + y) == CompleteLines(x) + Lines(Pending(x) + y)
  {
    assert (x + y)[..1] != "\n" by {
      assert (x + y)[..1] == x[..1];
    }
    assert (x + y)[1..] == x[1..] + y;
    var r := Lines(x[1..]);
    var t := Lines(x[1..] + y);
    assert Lines(x + y) == [[x[0]] + t[0]] + t[1..];
    assert Lines(x) == [[x[0]] + r[0]] + r[1..];
    if |r| == 1 {
      JoinSplit(x[1..], "\n");
      assert r[0] == x[1..];
      assert Pending(x) == x;
    } else {
      assert t == r[..|r| - 1] + Lines(r[|r| - 1] + y);
      assert t[0] == r[0];
      assert t[1..] == r[1..|r| - 1] + Lines(r[|r| - 1] + y);
    }
  }

  /** Text with no newline adds no complete line. */
  lemma CompleteLinesUnterminated(x: string, t: string)
    requires '\n' !in t
    ensures CompleteLines(x + t) == CompleteLines(x)
    ensures Pending(x + t) == Pending(x) + t
  {
    SplitConcat(x, t);
    SplitPiecesFree(x, '\n');
    assert '\n' !in Pending(x);
    SplitWithout(Pending(x) + t, '\n');
  }

  /** The complete lines of a prefix of the body are a prefix of the complete lines of the body. */
  lemma CompleteLinesGrow(x: string, y: string)
    ensures CompleteLines(x) <= CompleteLines(x + y)
  {
    SplitConcat(x, y);
  }

  predicate IsDataLine(line: string)
  {
    |line| >= 6 && line[..6] == "data: "
  }

  predicate IsDoneLine(line: string)
  {
    IsDataLine(line) && line[6..] == "[DONE]"
  }

  /** The chunks a line other than `data: [DONE]` delivers: the JSON `content` when it is present and non-empty, the raw data when it is not JSON, nothing for other lines. */
  function LineChunks(line: string, parse: string -> JsonData): seq<StreamEvent>
  {
    if !IsDataLine(line) then []
    else
      var data := line[6..];
      match parse(data)
      case NotJson => [Chunk(data)]
      case Parsed(content) => if content.Some? && content.value != "" then [Chunk(content.value)] else []
  }

  /** The events of a run of lines, and whether a `[DONE]` line stopped the reading. */
  datatype Outcome = Outcome(events: seq<StreamEvent>, stopped: bool)

  function LinesOutcome(lines: seq<string>, parse: string -> JsonData): Outcome
  {
    if lines == [] then Outcome([], false)
    else if IsDoneLine(lines[0]) then Outcome([Done], true)
    else
      var rest := LinesOutcome(lines[1..], parse);
      Outcome(LineChunks(lines[0], parse) + rest.events, rest.stopped)
  }

  lemma {:induction false} LinesOutcomeAppend(a: seq<string>, b: seq<string>, parse: string -> JsonData)
    ensures LinesOutcome(a + b, parse)
         == if LinesOutcome(a, parse).stopped then LinesOutcome(a, parse)
            else Outcome(LinesOutcome(a, parse).events + LinesOutcome(b, parse).events, LinesOutcome(b, parse).stopped)
    decreases |a|
  {
    if a == [] {
      assert a + b == b;
    } else {
      LinesOutcomeAppend(a[1..], b, parse);
      assert (a + b)[0] == a[0];
      assert (a + b)[1..] == a[1..] + b;
    }
  }

  lemma StoppedPrefix(p: seq<string>, q: seq<string>, parse: string -> JsonData)
    requires p <= q && LinesOutcome(p, parse).stopped
    ensures LinesOutcome(q, parse) == LinesOutcome(p, parse)
  {
    LinesOutcomeAppend(p, q[|p|..], parse);
    assert q == p + q[|p|..];
  }

  /**
   * The callbacks a whole response body produces: the events of its complete
   * lines, then `onDone` when the body ends, or `onError` when a read fails
   * (`fails`); nothing more once `[DONE]` was seen.
   */
  function StreamEvents(received: seq<string>, fails: bool, parse: string -> JsonData): seq<StreamEvent>
  {
    var o := LinesOutcome(CompleteLines(Concat(received)), parse);
    if o.stopped then o.events else o.events + [if fails then Failed else Done]
  }

  /** The loop over the complete lines of one read: chunks are delivered in order and `[DONE]` stops at once. */
  method HandleLines(lines: seq<string>, parse: string -> JsonData) returns (o: Outcome)
    ensures o == LinesOutcome(lines, parse)
  {
    var events: seq<StreamEvent> := [];
    for j := 0 to |lines|
      invariant LinesOutcome(lines[..j], parse) == Outcome(events, false)
    {
      var line := lines[j];
      LinesOutcomeAppend(lines[..j], [line], parse);
      assert lines[..j + 1] == lines[..j] + [line];
      if |line| >= 6 && line[..6] == "data: " && line[6..] == "[DONE]" {
        StoppedPrefix(lines[..j + 1], lines, parse);
        return Outcome(events + [Done], true);
      }
      events := events + LineChunks(line, parse);
    }
    assert lines[..|lines|] == lines;
    o := Outcome(events, false);
  }

  /**
   * `processStream`: each read is appended to the buffer, the buffer is cut
   * at newlines, the last piece is kept, and the complete lines are handled
   * in order; `[DONE]` ends the reading at once.
   */
  method ProcessStream(received: seq<string>, fails: bool, parse: string -> JsonData) returns (events: seq<StreamEvent>)
    ensures events == StreamEvents(received, fails, parse)
  {
    var buffer := "";
    events := [];
    var i := 0;
    while i < |received|
      invariant 0 <= i <= |received|
      invariant buffer == Pending(Concat(received[..i]))
      invariant LinesOutcome(CompleteLines(Concat(received[..i])), parse) == Outcome(events, false)
    {
      ghost var seen := CompleteLines(Concat(received[..i]));
      NextRead(received, i);
      buffer := buffer + received[i];
      var lines := SplitOn(buffer, "\n");
      buffer := lines[|lines| - 1];
      var o := HandleLines(lines[..|lines| - 1], parse);
      LinesOutcomeAppend(seen, lines[..|lines| - 1], parse);
      if o.stopped {
        events := events + o.events;
        DoneEndsStream(received, i, CompleteLines(Concat(received[..i + 1])), parse);
        return;
      }
      events := events + o.events;
      i := i + 1;
    }
    assert received[..|received|] == received;
    events := events + [if fails then Failed else Done];
  }

  /** How the complete lines and the buffer move on with read `i`. */
  lemma NextRead(received: seq<string>, i: nat)
    requires i < |received|
    ensures var lines := Lines(Pending(Concat(received[..i])) + received[i]);
      CompleteLines(Concat(received[..i + 1])) == CompleteLines(Concat(received[..i])) + lines[..|lines| - 1]
      && Pending(Concat(received[..i + 1])) == lines[|lines| - 1]
  {
    assert received[..i + 1][..i] == received[..i];
    SplitConcat(Concat(received[..i]), received[i]);
  }

  /** Once the lines read so far stop the stream, the rest of the body changes nothing. */
  lemma DoneEndsStream(received: seq<string>, i: nat, p: seq<string>, parse: string -> JsonData)
    requires i < |received|
    requires p == CompleteLines(Concat(received[..i + 1])) && LinesOutcome(p, parse).stopped
    ensures StreamEvents(received, false, parse) == LinesOutcome(p, parse).events
    ensures StreamEvents(received, true, parse) == LinesOutcome(p, parse).events
  {
    ConcatAppend(received[..i + 1], received[i + 1..]);
    assert received[..i + 1] + received[i + 1..] == received;
    CompleteLinesGrow(Concat(received[..i + 1]), Concat(received[i + 1..]));
    StoppedPrefix(p, CompleteLines(Concat(received)), parse);
  }

  /** The response of the chat request: an HTTP error, a body the runtime cannot stream, or the reads of the body. */
  datatype ChatResponse = HttpError(status: int) | NoBody | Body(received: seq<string>, fails: bool)

  /** `chatIAStream`: a non-OK status or a missing reader is reported through `onError` and nothing else. */
  method ChatIAStream(response: ChatResponse, parse: string -> JsonData) returns (events: seq<StreamEvent>)
    ensures !response.Body? ==> events == [Failed]
    ensures response.Body? ==> events == StreamEvents(response.received, response.fails, parse)
  {
    if !response.Body? {
      return [Failed];
    }
    events := ProcessStream(response.received, response.fails, parse);
  }

  lemma {:induction false} LinesOutcomeShape(lines: seq<string>, parse: string -> JsonData)
    ensures forall k :: 0 <= k < |LinesOutcome(lines, parse).events| - 1 ==> LinesOutcome(lines, parse).events[k].Chunk?
    ensures LinesOutcome(lines, parse).stopped <==> LinesOutcome(lines, parse).events != [] && LinesOutcome(lines, parse).events[|LinesOutcome(lines, parse).events| - 1] == Done
    ensures !LinesOutcome(lines, parse).stopped ==> forall e :: e in LinesOutcome(lines, parse).events ==> e.Chunk?
    decreases |lines|
  {
    if lines != [] && !IsDoneLine(lines[0]) {
      LinesOutcomeShape(lines[1..], parse);
    }
  }

  /** Exactly one of `onDone`/`onError` is called, and it is the last callback; every callback before it is a chunk. */
  lemma StreamEndsOnce(received: seq<string>, fails: bool, parse: string -> JsonData)
    ensures StreamEvents(received, fails, parse) != []
    ensures var ev := StreamEvents(received, fails, parse);
      !ev[|ev| - 1].Chunk? && forall k :: 0 <= k < |ev| - 1 ==> ev[k].Chunk?
  {
    var o := LinesOutcome(CompleteLines(Concat(received)), parse);
    LinesOutcomeShape(CompleteLines(Concat(received)), parse);
    var ev := StreamEvents(received, fails, parse);
    if !o.stopped {
      assert ev == o.events + [if fails then Failed else Done];
      assert forall k :: 0 <= k < |ev| - 1 ==> ev[k] == o.events[k];
    }
  }

  /** A trailing read with no newline delivers nothing: an unterminated last line is never handled. */
  lemma UnterminatedTailIgnored(received: seq<string>, t: string, fails: bool, parse: string -> JsonData)
    requires '\n' !in t
    ensures StreamEvents(received + [t], fails, parse) == StreamEvents(received, fails, parse)
  {
    assert (received + [t])[..|received|] == received;
    CompleteLinesUnterminated(Concat(received), t);
  }
}
