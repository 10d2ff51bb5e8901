/**
 * The line-framed event decoder of `chatAPI.sendMessageStream`: response text arrives in
 * chunks, is split into newline-terminated lines, and each line of the form `data: <json>`
 * whose payload parses to a value the logging statement can print is handed to the caller's
 * `onChunk` callback, in order.
 *
 * `JSON.parse` is the parameter `parse`: `None` when it throws, `Some(Unloggable)` when it returns
 * a value on which that logging statement throws, `Some(Loggable(v))` when it returns any other
 * value `v`.
 */
module EventStream {
  import opened Wrappers
  import opened Text

  /**
   * A value `JSON.parse` returns, seen by the logging statement that runs before `onChunk`:
   * `Unloggable` when reading `data.type` or formatting `data.content.length` throws on it
   * (`null`, or a truthy `content` whose `length` cannot be turned into a string), and
   * `Loggable(v)` for any other value `v`.
   */
  datatype ParsedValue<J> = Unloggable | Loggable(value: J)

  /** `JSON.parse` on a payload; `None` when it throws. */
  type Parser<J> = string -> Option<ParsedValue<J>>

  /**
   * The value that reaches `onChunk` from one parse, if any. A parse that throws delivers
   * nothing; so does an unloggable value, because the logging statement throws inside the same `try`.
   */
  function Delivered<J>(parsed: Option<ParsedValue<J>>): (r: Option<J>)
    ensures r.Some? <==> parsed.Some? && parsed.value.Loggable?
    ensures r.Some? ==> parsed == Some(Loggable(r.value))
  {
    match parsed
    case Some(Loggable(data)) => Some(data)
    case _ => None
  }

  /** The prefix that marks a line carrying an event. */
  const DataPrefix: string := "data: "

  /** The filter applied to every complete line: non-blank once trimmed, and starting with the prefix. */
  predicate IsDataLine(line: string)
  {
    Trim(line) != "" && StartsWith(line, DataPrefix)
  }

  /** The blank-line test is subsumed by the prefix test: a line starting with `data: ` is never blank. */
  lemma DataLineIffPrefix(line: string)
    ensures IsDataLine(line) <==> StartsWith(line, DataPrefix)
  {
    TrimEmptyIffBlank(line);
    if StartsWith(line, DataPrefix) {
      assert line[0] == 'd';
    }
  }

  /** The event a single complete line yields, if any: the loggable parse of the text after `data: `. */
  function LineEvent<J>(line: string, parse: Parser<J>): (r: Option<J>)
    ensures r.Some? ==> StartsWith(line, DataPrefix) && parse(line[|DataPrefix|..]) == Some(Loggable(r.value))
    ensures StartsWith(line, DataPrefix) && parse(line[|DataPrefix|..]).Some? && parse(line[|DataPrefix|..]).value.Loggable? ==> r.Some?
  {
    DataLineIffPrefix(line);
    if IsDataLine(line) then Delivered(parse(line[|DataPrefix|..])) else None
  }

  /** The events one complete line yields: none or one. */
  function LineEvents<J>(line: string, parse: Parser<J>): seq<J>
  {
    match LineEvent(line, parse)
    case Some(data) => [data]
    case None => []
  }

  /** The events a sequence of complete lines yields, in line order: at most one per line, none without a `data: ` line. */
  function EventsOf<J>(lines: seq<string>, parse: Parser<J>): (events: seq<J>)
    ensures |events| <= |lines|
  {
    if lines == [] then []
    else EventsOf(lines[..|lines| - 1], parse) + LineEvents(lines[|lines| - 1], parse)
  }

  /**
   * One line yields exactly one event when it starts with `data: ` and the text after those
   * 6 characters parses to a loggable value, and that event is the value; otherwise none.
   */
  lemma SingleLineEvents<J>(line: string, parse: Parser<J>)
    ensures EventsOf([line], parse) ==
      if !StartsWith(line, DataPrefix) then []
      else match parse(line[|DataPrefix|..])
        case Some(Loggable(data)) => [data]
        case _ => []
  {
    DataLineIffPrefix(line);
    assert [line][..0] == [];
  }

  /** Dropping the last line of `a + b`, for a non-empty `b`. */
  lemma SnocSplit(a: seq<string>, b: seq<string>)
    requires b != []
    ensures (a + b)[..|a + b| - 1] == a + b[..|b| - 1] && (a + b)[|a + b| - 1] == b[|b| - 1]
  {
  }

  /** Events of consecutive groups of lines come out consecutively, each group in its own order. */
  lemma {:induction false} EventsOfAppend<J>(a: seq<string>, b: seq<string>, parse: Parser<J>)
    ensures EventsOf(a + b, parse) == EventsOf(a, parse) + EventsOf(b, parse)
    decreases |b|
  {
    if b == [] {
      assert a + b == a;
    } else {
      var init, last := b[..|b| - 1], b[|b| - 1];
      EventsOfAppend(a, init, parse);
      SnocSplit(a, b);
      EventsOfSnoc(a + b, parse);
      EventsOfSnoc(b, parse);
      AppendAssoc(EventsOf(a, parse), EventsOf(init, parse), LineEvents(last, parse));
    }
  }

  /** The events of non-empty lines: those of all but the last line, then those of the last. */
  lemma EventsOfSnoc<J>(lines: seq<string>, parse: Parser<J>)
    requires lines != []
    ensures EventsOf(lines, parse) == EventsOf(lines[..|lines| - 1], parse) + LineEvents(lines[|lines| - 1], parse)
  {
  }

  /**
   * A line that is blank, lacks the `data: ` prefix at column 0, or whose payload fails to
   * parse or parses to an unloggable value contributes nothing, and the lines around it are decoded as if
   * it were absent.
   */
  lemma SkippedLine<J>(before: seq<string>, line: string, after: seq<string>, parse: Parser<J>)
    requires AllWhitespace(line) || !StartsWith(line, DataPrefix) ||
             parse(line[|DataPrefix|..]).None? || parse(line[|DataPrefix|..]) == Some(Unloggable)
    ensures EventsOf(before + [line] + after, parse) == EventsOf(before, parse) + EventsOf(after, parse)
  {
    SkippedLineAlone(line, parse);
    EventsOfAppend(before + [line], after, parse);
    EventsOfAppend(before, [line], parse);
  }

  /** Such a line, on its own, yields no event. */
  lemma SkippedLineAlone<J>(line: string, parse: Parser<J>)
    requires AllWhitespace(line) || !StartsWith(line, DataPrefix) ||
             parse(line[|DataPrefix|..]).None? || parse(line[|DataPrefix|..]) == Some(Unloggable)
    ensures EventsOf([line], parse) == []
  {
    if AllWhitespace(line) && |line| > 0 {
      assert IsJsWhitespace(line[0]);
    }
    SingleLineEvents(line, parse);
  }

  /** Every event is the loggable parse of the text after `data: ` on one of the lines. */
  lemma {:induction false} EventsComeFromDataLines<J>(lines: seq<string>, parse: Parser<J>, k: nat)
    requires k < |EventsOf(lines, parse)|
    ensures exists j :: 0 <= j < |lines| && StartsWith(lines[j], DataPrefix) &&
                        parse(lines[j][|DataPrefix|..]) == Some(Loggable(EventsOf(lines, parse)[k]))
    decreases |lines|
  {
    var init := lines[..|lines| - 1];
    var last := lines[|lines| - 1];
    if k < |EventsOf(init, parse)| {
      EventsComeFromDataLines(init, parse, k);
      var j :| 0 <= j < |init| && StartsWith(init[j], DataPrefix) && parse(init[j][|DataPrefix|..]) == Some(Loggable(EventsOf(init, parse)[k]));
      assert lines[j] == init[j];
    } else {
      DataLineIffPrefix(last);
      assert lines[|lines| - 1] == last;
    }
  }

  /** The forEach over the complete lines: each accepted line's loggable parsed payload goes to `onChunk`. */
  method DeliverLines<J>(lines: seq<string>, parse: Parser<J>) returns (events: seq<J>)
    ensures events == EventsOf(lines, parse)
  {
    events := [];
    for i := 0 to |lines|
      invariant events == EventsOf(lines[..i], parse)
    {
      var line := lines[i];
      if Trim(line) != "" && StartsWith(line, DataPrefix) {
        match parse(line[|DataPrefix|..]) {
          case Some(Loggable(data)) => events := events + [data];
          case Some(Unloggable) => // the logging statement throws: the line is skipped
          case None => // the parse threw: the line is skipped and the loop goes on
        }
      }
      assert lines[..i + 1][..i] == lines[..i];
      assert EventsOf(lines[..i + 1], parse) == EventsOf(lines[..i], parse) + LineEvents(line, parse);
    }
    assert lines[..|lines|] == lines;
  }

  /** The decoder state of one stream: the text received after the last newline. */
  class LineDecoder {
    var buffer: string

    constructor ()
      ensures buffer == ""
    {
      buffer := "";
    }

    /**
     * One chunk: append it to the buffer, split on `'\n'`, keep the last piece as the new
     * buffer and deliver the events of the other pieces, which are complete lines.
     */
    method Feed<J>(chunk: string, parse: Parser<J>) returns (events: seq<J>)
      modifies this
      ensures NoNewline(buffer)
      ensures Terminated(Lines(old(buffer) + chunk)) + buffer == old(buffer) + chunk
      ensures buffer == Rest(old(buffer) + chunk)
      ensures events == EventsOf(Lines(old(buffer) + chunk), parse)
    {
      buffer := buffer + chunk;
      ghost var received := buffer;
      var lines := SplitOnNewline(buffer);
      buffer := lines[|lines| - 1];  // lines.pop()
      lines := lines[..|lines| - 1];
      events := DeliverLines(lines, parse);
      SplitRoundTrip(received);
    }

    /**
     * The reads of `readStream`, one `Feed` per chunk read, in order. The buffer ends as what
     * follows the last newline of everything received, and the events are those of all the
     * complete lines: the same as feeding the concatenation of the chunks in one call.
     */
    method FeedAll<J>(chunks: seq<string>, parse: Parser<J>) returns (events: seq<J>)
      requires NoNewline(buffer)
      modifies this
      ensures NoNewline(buffer)
      ensures buffer == Rest(old(buffer) + Concat(chunks)) && buffer == FedRest(old(buffer), chunks)
      ensures events == EventsOf(Lines(old(buffer) + Concat(chunks)), parse)
      ensures events == FedEvents(old(buffer), chunks, parse)
    {
      ghost var start := buffer;
      NoLineWithoutNewline(start);
      assert start + Concat(chunks[..0]) == start;
      events := [];
      for i := 0 to |chunks|
        invariant buffer == Rest(start + Concat(chunks[..i]))
        invariant events == EventsOf(Lines(start + Concat(chunks[..i])), parse)
      {
        FeedStep(start, chunks, i, parse);
        var delivered := Feed(chunks[i], parse);
        events := events + delivered;
      }
      assert chunks[..|chunks|] == chunks;
      PartitionInsensitive(start, chunks);
      FedEventsInsensitive(start, chunks, parse);
    }
  }

  /**
   * Feeding chunk `i` after the chunks before it: the buffer and the events agree with those
   * of the text received so far, one chunk longer.
   */
  lemma FeedStep<J>(start: string, chunks: seq<string>, i: nat, parse: Parser<J>)
    requires i < |chunks|
    ensures Rest(Rest(start + Concat(chunks[..i])) + chunks[i]) == Rest(start + Concat(chunks[..i + 1]))
    ensures EventsOf(Lines(start + Concat(chunks[..i])), parse) +
            EventsOf(Lines(Rest(start + Concat(chunks[..i])) + chunks[i]), parse) ==
            EventsOf(Lines(start + Concat(chunks[..i + 1])), parse)
  {
    var received := start + Concat(chunks[..i]);
    assert chunks[..i + 1][..i] == chunks[..i];
    assert start + Concat(chunks[..i + 1]) == received + chunks[i];
    SplitAppend(received, chunks[i]);
    EventsOfAppend(Lines(received), Lines(Rest(received) + chunks[i]), parse);
  }

  /** Events delivered, in order, when `chunks` are fed one at a time to a decoder holding `buffer`. */
  function FedEvents<J>(buffer: string, chunks: seq<string>, parse: Parser<J>): seq<J>
    decreases |chunks|
  {
    if chunks == [] then []
    else EventsOf(Lines(buffer + chunks[0]), parse) + FedEvents(Rest(buffer + chunks[0]), chunks[1..], parse)
  }

  /** Lines completed, in order, when `chunks` are fed one at a time to a decoder holding `buffer`. */
  function FedLines(buffer: string, chunks: seq<string>): seq<string>
    decreases |chunks|
  {
    if chunks == [] then []
    else Lines(buffer + chunks[0]) + FedLines(Rest(buffer + chunks[0]), chunks[1..])
  }

  /** The buffer left when `chunks` are fed one at a time to a decoder holding `buffer`. */
  function FedRest(buffer: string, chunks: seq<string>): string
    decreases |chunks|
  {
    if chunks == [] then buffer
    else FedRest(Rest(buffer + chunks[0]), chunks[1..])
  }

  /**
   * Chunk-boundary insensitivity: feeding any partition of a stream, one chunk at a time,
   * completes the same lines in the same order and leaves the same buffer as feeding the whole
   * stream in one chunk.
   */
  lemma {:induction false} PartitionInsensitive(buffer: string, chunks: seq<string>)
    requires NoNewline(buffer)
    ensures FedLines(buffer, chunks) == Lines(buffer + Concat(chunks))
    ensures FedRest(buffer, chunks) == Rest(buffer + Concat(chunks))
    decreases |chunks|
  {
    if chunks == [] {
      assert buffer + Concat(chunks) == buffer;
      NoLineWithoutNewline(buffer);
    } else {
      var first := buffer + chunks[0];
      var others := chunks[1..];
      var left := Rest(first);
      PartitionInsensitive(left, others);
      SplitAppend(first, Concat(others));
      ConcatFront(chunks);
      assert buffer + Concat(chunks) == first + Concat(others);
    }
  }

  /** Fed one chunk at a time, a stream delivers the events of its complete lines, in order. */
  lemma {:induction false} FedEventsInsensitive<J>(buffer: string, chunks: seq<string>, parse: Parser<J>)
    requires NoNewline(buffer)
    ensures FedEvents(buffer, chunks, parse) == EventsOf(Lines(buffer + Concat(chunks)), parse)
    decreases |chunks|
  {
    if chunks == [] {
      assert buffer + Concat(chunks) == buffer;
      NoLineWithoutNewline(buffer);
    } else {
      var first := buffer + chunks[0];
      var others := chunks[1..];
      FedEventsInsensitive(Rest(first), others, parse);
      PartitionInsensitive(buffer, chunks);
      PartitionInsensitive(Rest(first), others);
      EventsOfAppend(Lines(first), FedLines(Rest(first), others), parse);
    }
  }

  /** What `fetch` produced: a network failure, or a response with its HTTP status. */
  datatype FetchResult = NetworkError | Response(status: int)

  /** How the reader's sequence of reads ended: `done`, or a rejected read. */
  datatype StreamEnd = Done | ReadFailed

  /** How the promise returned by `sendMessageStream` settles. */
  datatype Outcome = Resolved | Rejected

  /** `response.ok`: a status in the range 200-299. */
  predicate IsOk(status: int)
  {
    200 <= status <= 299
  }

  /**
   * `sendMessageStream` over a response whose body was read as `chunks` and then ended as `end`.
   * `events` is the sequence of values passed to `onChunk`. A failed request or a non-OK status
   * rejects before anything is decoded; otherwise every chunk is fed to one decoder, and
   * whatever is still buffered when the reads end is dropped.
   */
  method SendMessageStream<J>(fetched: FetchResult, chunks: seq<string>, end: StreamEnd, parse: Parser<J>)
    returns (outcome: Outcome, events: seq<J>)
    ensures (fetched.NetworkError? || !IsOk(fetched.status)) ==> outcome == Rejected && events == []
    ensures fetched.Response? && IsOk(fetched.status) ==>
              outcome == (if end == Done then Resolved else Rejected) &&
              events == EventsOf(Lines(Concat(chunks)), parse) &&
              events == FedEvents("", chunks, parse)
  {
    if fetched.NetworkError? || !IsOk(fetched.status) {
      return Rejected, [];
    }
    var decoder := new LineDecoder();
    events := decoder.FeedAll(chunks, parse);
    assert "" + Concat(chunks) == Concat(chunks);
    outcome := if end == Done then Resolved else Rejected;
  }

  /** A final line without its newline is never delivered, whatever it holds. */
  lemma UnterminatedLineDropped<J>(stream: string, tail: string, parse: Parser<J>)
    requires NoNewline(tail)
    ensures EventsOf(Lines(stream + tail), parse) == EventsOf(Lines(stream), parse)
  {
    UnterminatedAddsNoLine(stream, tail);
  }

  /** Feeding two chunks, unfolded. */
  lemma FedTwoChunks<J>(buffer: string, first: string, second: string, parse: Parser<J>)
    ensures FedEvents(buffer, [first, second], parse) ==
      EventsOf(Lines(buffer + first), parse) + EventsOf(Lines(Rest(buffer + first) + second), parse)
  {
    var left := Rest(buffer + first);
    assert [first, second][1..] == [second] && [second][1..] == [];
    assert FedEvents(Rest(left + second), [], parse) == [];
    assert FedEvents(left, [second], parse) == EventsOf(Lines(left + second), parse);
  }

  /**
   * The line `data: <p>` yields nothing when `p` parses to an unloggable value such as `null`:
   * the logging statement throws and the exception is caught.
   */
  lemma UnloggablePayloadSkipped<J>(p: string, parse: Parser<J>)
    requires parse(p) == Some(Unloggable)
    ensures EventsOf([DataPrefix + p], parse) == []
  {
    DataLineEvent(p, parse);
  }

  /** The line `data: <p>` yields the parse of `p` when that is a loggable value, and nothing otherwise. */
  lemma DataLineEvent<J>(p: string, parse: Parser<J>)
    ensures EventsOf([DataPrefix + p], parse) == match parse(p) case Some(Loggable(data)) => [data] case _ => []
  {
    var line := DataPrefix + p;
    assert line[..|DataPrefix|] == DataPrefix && line[|DataPrefix|..] == p;
    SingleLineEvents(line, parse);
  }

  /**
   * A chunk boundary inside the `data: ` prefix of a line: `data: <p>\nda` then `ta: <q>\n`
   * delivers the parse of `p`, then the parse of `q`, as the whole text would.
   */
  lemma PrefixSplitExample<J>(p: string, q: string, parse: Parser<J>, a: J, b: J)
    requires NoNewline(p) && NoNewline(q)
    requires parse(p) == Some(Loggable(a)) && parse(q) == Some(Loggable(b))
    ensures FedEvents("", [DataPrefix + p + "\nda", "ta: " + q + "\n"], parse) == [a, b]
  {
    var first, second := DataPrefix + p + "\nda", "ta: " + q + "\n";
    FirstChunkOfExample(p, parse, a);
    SecondChunkOfExample(q, parse, b);
    FedTwoChunks("", first, second, parse);
  }

  lemma FirstChunkOfExample<J>(p: string, parse: Parser<J>, a: J)
    requires NoNewline(p) && parse(p) == Some(Loggable(a))
    ensures Rest("" + (DataPrefix + p + "\nda")) == "da"
    ensures EventsOf(Lines("" + (DataPrefix + p + "\nda")), parse) == [a]
  {
    var lineA := DataPrefix + p;
    DataLineNoNewline(p);
    assert "" + (DataPrefix + p + "\nda") == lineA + "\n" + "da";
    OneLine(lineA, "da");
    DataLineEvent(p, parse);
  }

  lemma SecondChunkOfExample<J>(q: string, parse: Parser<J>, b: J)
    requires NoNewline(q) && parse(q) == Some(Loggable(b))
    ensures EventsOf(Lines("da" + ("ta: " + q + "\n")), parse) == [b]
  {
    var lineB := DataPrefix + q;
    DataLineNoNewline(q);
    assert "da" + ("ta: " + q + "\n") == lineB + "\n" + "";
    OneLine(lineB, "");
    DataLineEvent(q, parse);
  }

  /** `data: <p>` holds no newline when `p` holds none. */
  lemma DataLineNoNewline(p: string)
    requires NoNewline(p)
    ensures NoNewline(DataPrefix + p)
  {
    NoNewlineAppend(DataPrefix, p);
  }

  /** Two newline-terminated `data: ` lines frame as exactly those two lines. */
  lemma TwoDataLines(a: string, b: string)
    requires NoNewline(a) && NoNewline(b)
    ensures Lines(DataPrefix + a + "\n" + DataPrefix + b + "\n") == [DataPrefix + a, DataPrefix + b]
  {
    DataLineNoNewline(a);
    DataLineNoNewline(b);
    assert DataPrefix + a + "\n" + DataPrefix + b + "\n" == (DataPrefix + a) + "\n" + (DataPrefix + b) + "\n";
    TwoLines(DataPrefix + a, DataPrefix + b);
  }

  /**
   * A payload that fails to parse is skipped and the next line is still delivered:
   * `data: <bad>\ndata: <good>\n` delivers only the parse of `good`.
   */
  lemma MalformedLineExample<J>(bad: string, good: string, parse: Parser<J>, c: J)
    requires NoNewline(bad) && NoNewline(good)
    requires (parse(bad).None? || parse(bad) == Some(Unloggable)) && parse(good) == Some(Loggable(c))
    ensures EventsOf(Lines(DataPrefix + bad + "\n" + DataPrefix + good + "\n"), parse) == [c]
  {
    var lineBad, lineGood := DataPrefix + bad, DataPrefix + good;
    TwoDataLines(bad, good);
    DataLineEvent(bad, parse);
    DataLineEvent(good, parse);
    EventsOfAppend([lineBad], [lineGood], parse);
    assert [lineBad] + [lineGood] == [lineBad, lineGood];
  }
}
