/**
 * The streaming re-framer of `stream_llm_response` as functions over values:
 * the upstream's byte stream (given as decoded text chunks) is cut into lines,
 * each line is read as a server-sent-events `data:` field (the convention of
 * section 9.2 of the WHATWG HTML Living Standard), its payload is decoded,
 * duplicate and empty deltas are dropped, and the remaining deltas are sent on
 * in groups of five.
 *
 * JSON decoding is a parameter: `decode(payload)` is `ParseOk(content)` when
 * `json.loads` succeeds, where `content` is `choices[0].delta.content` (an
 * absent key gives ""), and `ParseErr` when it raises `JSONDecodeError`.
 */
module Sse {
  import opened Wrappers
  import opened Text

  datatype ParseResult = ParseOk(content: string) | ParseErr

  type Parser = string -> ParseResult

  /** One event sent downstream; `Render` gives its text on the wire. */
  datatype Event =
    | Tokens(batch: seq<string>)       // a group of accepted deltas
    | InvalidFormat                    // a `data:` payload that is not JSON
    | Done                             // the upstream's `[DONE]` sentinel
    | TransportError(message: string)  // the text of a `requests` exception

  /** Number of accepted deltas sent together (`bufferThreshold`). */
  const Threshold := 5

  const DataPrefix := "data:"

  const Sentinel := "[DONE]"

  /** The frame written downstream for an event: `data:<payload>` and a blank line. */
  function Render(e: Event): (wire: string)
    ensures StartsWith(wire, DataPrefix)
    ensures |wire| >= 7 && wire[|wire| - 2..] == "\n\n"
  {
    var payload :=
      match e
      case Tokens(batch) => Join(" ", batch)
      case InvalidFormat => "Error: Invalid response format"
      case Done => Sentinel
      case TransportError(m) => "Error: " + m;
    assert (DataPrefix + payload + "\n\n")[..5] == DataPrefix;
    DataPrefix + payload + "\n\n"
  }

  function RenderAll(events: seq<Event>): (wire: seq<string>)
    ensures |wire| == |events|
    ensures forall i :: 0 <= i < |events| ==> wire[i] == Render(events[i])
  {
    seq(|events|, i requires 0 <= i < |events| => Render(events[i]))
  }

  /** What one complete line means to the re-framer. */
  datatype LineKind =
    | Ignored                  // not a `data:` line
    | Terminator               // `data:` with payload `[DONE]`
    | Malformed                // `data:` with a payload that is not JSON
    | Delta(content: string)   // `data:` with a decoded delta

  /** Reading one line: strip it, look for `data:`, strip the payload, look for the sentinel, decode. */
  function Classify(line: string, decode: Parser): LineKind
  {
    var l := Strip(line);
    if !StartsWith(l, DataPrefix) then Ignored
    else
      var payload := Strip(l[|DataPrefix|..]);
      if payload == Sentinel then Terminator
      else
        match decode(payload)
        case ParseErr => Malformed
        case ParseOk(c) => Delta(c)
  }

  /**
   * The state the line loop keeps: `tokenBuffer`, `previous_token`, and whether
   * the sentinel has ended the stream (the generator has returned).
   */
  datatype DecoderState = DecoderState(tokenBuffer: seq<string>, previousToken: Option<string>, closed: bool)

  /** The whole state between chunks: the unterminated line `buffer` as well. */
  datatype StreamState = StreamState(buffer: string, decoder: DecoderState)

  const InitialDecoder := DecoderState([], None, false)

  const InitialStream := StreamState("", InitialDecoder)

  /** A decoded delta: dropped when empty or equal to the last accepted one, else buffered and sent at five. */
  function Accept(d: DecoderState, content: string): (DecoderState, seq<Event>)
  {
    if content != "" && Some(content) != d.previousToken then
      var pending := d.tokenBuffer + [content];
      if |pending| >= Threshold then (DecoderState([], Some(content), d.closed), [Tokens(pending)])
      else (DecoderState(pending, Some(content), d.closed), [])
    else (d, [])
  }

  /** What one complete line does to the state, given what the line means. */
  function Handle(d: DecoderState, kind: LineKind): (DecoderState, seq<Event>)
  {
    match kind
    case Ignored => (d, [])
    case Terminator => (d.(closed := true), [Done])
    case Malformed => (d, [InvalidFormat])
    case Delta(c) => Accept(d, c)
  }

  /** One complete line of the upstream. */
  function ProcessLine(d: DecoderState, line: string, decode: Parser): (DecoderState, seq<Event>)
  {
    Handle(d, Classify(line, decode))
  }

  /** The meaning of each line, in order. */
  function Kinds(lines: seq<string>, decode: Parser): (kinds: seq<LineKind>)
    ensures |kinds| == |lines|
    ensures forall i :: 0 <= i < |lines| ==> kinds[i] == Classify(lines[i], decode)
  {
    seq(|lines|, i requires 0 <= i < |lines| => Classify(lines[i], decode))
  }

  /** Lines in order, given by their meaning, stopping after the sentinel (`return`). */
  function HandleAll(d: DecoderState, kinds: seq<LineKind>): (DecoderState, seq<Event>)
    decreases |kinds|
  {
    if kinds == [] then (d, [])
    else
      var before := HandleAll(d, AllButLast(kinds));
      if before.0.closed then before
      else
        var step := Handle(before.0, Last(kinds));
        (step.0, before.1 + step.1)
  }

  /** The complete lines of one chunk, in order (`for line in lines[:-1]`). */
  function ProcessLines(d: DecoderState, lines: seq<string>, decode: Parser): (DecoderState, seq<Event>)
  {
    HandleAll(d, Kinds(lines, decode))
  }

  /**
   * One chunk of the upstream (the body of `for chunk in ...`): it is added to
   * the buffer, every line it completes is processed, and the unterminated rest
   * becomes the new buffer.  Empty chunks are skipped.  Once the sentinel has
   * been seen nothing more is read, and the buffer is no longer used.
   */
  function FeedChunk(s: StreamState, chunk: string, decode: Parser): (r: (StreamState, seq<Event>))
    ensures '\n' !in s.buffer && !r.0.decoder.closed ==> '\n' !in r.0.buffer
  {
    if s.decoder.closed || chunk == [] then (s, [])
    else
      var lines := Split(s.buffer + chunk);
      var done := ProcessLines(s.decoder, AllButLast(lines), decode);
      (StreamState(if done.0.closed then s.buffer + chunk else Last(lines), done.0), done.1)
  }

  /** The chunks in order. */
  function FeedAll(s: StreamState, chunks: seq<string>, decode: Parser): (StreamState, seq<Event>)
    decreases |chunks|
  {
    if chunks == [] then (s, [])
    else
      var before := FeedAll(s, AllButLast(chunks), decode);
      var step := FeedChunk(before.0, Last(chunks), decode);
      (step.0, before.1 + step.1)
  }

  /** After the last chunk: the pending deltas, if any, as one more event. */
  function FinalFlush(d: DecoderState): seq<Event>
  {
    if d.tokenBuffer != [] then [Tokens(d.tokenBuffer)] else []
  }

  /**
   * The upstream as the proxy sees it: the chunks it delivered, then either a
   * clean end of the body or a `requests` exception with `failure`'s message
   * (before the first chunk when the connection or the status check failed).
   */
  datatype Upstream = Upstream(chunks: seq<string>, failure: Option<string>)

  /** The whole output of `stream_llm_response`, as events. */
  function Run(up: Upstream, decode: Parser): seq<Event>
  {
    var fed := FeedAll(InitialStream, up.chunks, decode);
    Finish(fed.0.decoder, fed.1, up.failure)
  }

  /** How the generator ends once the chunks are consumed. */
  function Finish(d: DecoderState, events: seq<Event>, failure: Option<string>): seq<Event>
  {
    if d.closed then events
    else
      match failure
      case Some(m) => events + [TransportError(m)]
      case None => events + FinalFlush(d)
  }

  // ----- reference definitions the re-framer is compared with -----

  /** Some line is the sentinel. */
  predicate HasTerminator(kinds: seq<LineKind>)
  {
    exists i :: 0 <= i < |kinds| && kinds[i].Terminator?
  }

  /** The delta a line carries, if it is a delta line. */
  function DeltaOf(kind: LineKind): seq<string>
  {
    match kind
    case Delta(c) => [c]
    case _ => []
  }

  /** The decoded deltas of the lines, in order, up to the first sentinel. */
  function Deltas(kinds: seq<LineKind>): seq<string>
    decreases |kinds|
  {
    if kinds == [] then []
    else
      var before := AllButLast(kinds);
      if HasTerminator(before) then Deltas(before) else Deltas(before) + DeltaOf(Last(kinds))
  }

  /** The last token kept so far, or `prev` when none has been kept. */
  function LastKept(prev: Option<string>, kept: seq<string>): Option<string>
  {
    if kept == [] then prev else Some(Last(kept))
  }

  /**
   * Duplicate suppression on its own: keep a delta when it is non-empty and
   * differs from the last one kept (initially `prev`).
   */
  function Dedupe(prev: Option<string>, deltas: seq<string>): (kept: seq<string>)
    ensures |kept| <= |deltas|
    ensures forall i :: 0 <= i < |kept| ==> kept[i] != ""
    ensures forall i :: 0 <= i < |kept| - 1 ==> kept[i] != kept[i + 1]
    ensures kept != [] && prev.Some? ==> kept[0] != prev.value
    decreases |deltas|
  {
    if deltas == [] then []
    else
      var kept := Dedupe(prev, AllButLast(deltas));
      var x := Last(deltas);
      if x != "" && Some(x) != LastKept(prev, kept) then kept + [x] else kept
  }

  /** The tokens carried by the token events, in order. */
  function Emitted(events: seq<Event>): seq<string>
    decreases |events|
  {
    if events == [] then []
    else
      Emitted(AllButLast(events)) + (match Last(events) case Tokens(b) => b case _ => [])
  }
}
