/**
 * `stream_llm_response` as the generator runs it: a re-framer object whose
 * fields are the generator's local variables (`buffer`, `tokenBuffer`,
 * `previous_token`, and whether it has returned), fed the upstream chunks one
 * by one.  Each method is proved against the functions of module Sse, so the
 * properties proved in module SseProofs hold of what it sends.
 */
module Proxy {
  import opened Wrappers
  import opened Text
  import opened Sse
  import opened SseProofs

  class Reframer {
    var buffer: string
    var tokenBuffer: seq<string>
    var previousToken: Option<string>
    var closed: bool
    const decode: Parser

    function Decoder(): DecoderState
      reads this
    {
      DecoderState(tokenBuffer, previousToken, closed)
    }

    function State(): StreamState
      reads this
    {
      StreamState(buffer, Decoder())
    }

    constructor (decode: Parser)
      ensures State() == InitialStream && this.decode == decode
    {
      buffer := "";
      tokenBuffer := [];
      previousToken := None;
      closed := false;
      this.decode := decode;
    }

    /** One complete line of the upstream (the body of `for line in lines[:-1]`). */
    method HandleLine(line: string) returns (events: seq<Event>)
      modifies this
      ensures (Decoder(), events) == ProcessLine(old(Decoder()), line, decode)
      ensures buffer == old(buffer)
    {
      events := [];
      var l := Strip(line);
      if StartsWith(l, DataPrefix) {
        var token := Strip(l[|DataPrefix|..]);
        if token == Sentinel {
          events := [Done];
          closed := true;
        } else {
          match decode(token)
          case ParseErr =>
            events := [InvalidFormat];
          case ParseOk(content) =>
            if content != "" && Some(content) != previousToken {
              previousToken := Some(content);
              tokenBuffer := tokenBuffer + [content];
              if |tokenBuffer| >= Threshold {
                events := [Tokens(tokenBuffer)];
                tokenBuffer := [];
              }
            }
        }
      }
    }

    /** One chunk of the upstream (the body of `for chunk in response.iter_content()`). */
    method Feed(chunk: string) returns (events: seq<Event>)
      modifies this
      ensures (State(), events) == FeedChunk(old(State()), chunk, decode)
    {
      events := [];
      if closed || chunk == [] {
        return;
      }
      buffer := buffer + chunk;
      var lines := Split(buffer);
      var complete := AllButLast(lines);
      ghost var start := Decoder();
      var i := 0;
      while i < |complete| && !closed
        invariant 0 <= i <= |complete|
        invariant buffer == old(buffer) + chunk
        invariant (Decoder(), events) == ProcessLines(start, complete[..i], decode)
      {
        var out := HandleLine(complete[i]);
        ProcessLinesSnoc(start, complete[..i], complete[i], decode);
        assert complete[..i + 1] == complete[..i] + [complete[i]];
        events := events + out;
        i := i + 1;
      }
      if closed {
        ProcessLinesPrefixClosed(start, complete, i, decode);
      } else {
        assert complete[..i] == complete;
        buffer := Last(lines);
      }
    }

    /** After the last chunk: `if tokenBuffer: yield ...`. */
    method Flush() returns (events: seq<Event>)
      ensures events == FinalFlush(Decoder())
    {
      events := [];
      if tokenBuffer != [] {
        events := [Tokens(tokenBuffer)];
      }
    }
  }

  /**
   * The whole generator: the chunks the upstream delivers are fed in order
   * until the sentinel; then either the stream has ended at the sentinel, or
   * a transport error gives its one error event, or the pending deltas are
   * flushed.  The output is the frames sent downstream, in order.
   */
  method StreamLlmResponse(up: Upstream, decode: Parser) returns (output: seq<string>)
    ensures output == RenderAll(Run(up, decode))
  {
    var r := new Reframer(decode);
    var events: seq<Event> := [];
    var i := 0;
    while i < |up.chunks| && !r.closed
      invariant 0 <= i <= |up.chunks|
      invariant r.decode == decode
      invariant (r.State(), events) == FeedAll(InitialStream, up.chunks[..i], decode)
    {
      var out := r.Feed(up.chunks[i]);
      FeedAllSnoc(InitialStream, up.chunks[..i], up.chunks[i], decode);
      assert up.chunks[..i + 1] == up.chunks[..i] + [up.chunks[i]];
      events := events + out;
      i := i + 1;
    }
    if r.closed {
      FeedAllPrefixClosed(InitialStream, up.chunks, i, decode);
    } else {
      assert up.chunks[..i] == up.chunks;
      match up.failure
      case Some(m) =>
        events := events + [TransportError(m)];
      case None =>
        var last := r.Flush();
        events := events + last;
    }
    output := RenderAll(events);
  }
}
