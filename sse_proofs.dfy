/**
 * What the re-framer guarantees, proved about the functions of module Sse:
 * line framing does not depend on how the upstream chunks its body, accepted
 * deltas keep their order and never repeat back to back, every mid-stream
 * token event carries exactly five deltas, and the sentinel ends the stream.
 */
module SseProofs {
  import opened Wrappers
  import opened Text
  import opened Sse

  /** The lines of the upstream body that a newline has completed. */
  function CompletedLines(chunks: seq<string>): seq<string>
  {
    AllButLast(Split(Concat(chunks)))
  }

  /** Events that can appear before the end of the line loop's output. */
  predicate MidStream(e: Event)
  {
    || e == InvalidFormat
    || e == Done
    || (e.Tokens? && |e.batch| == Threshold)
  }

  /** What holds of the decoder state between lines. */
  ghost predicate Coherent(d: DecoderState)
  {
    && |d.tokenBuffer| < Threshold
    && (d.tokenBuffer != [] ==> d.previousToken == Some(Last(d.tokenBuffer)))
  }

  // ----- the line loop -----

  /** After the sentinel no line is looked at. */
  lemma {:induction false} HandleAllClosed(d: DecoderState, kinds: seq<LineKind>)
    requires d.closed
    ensures HandleAll(d, kinds) == (d, [])
    decreases |kinds|
  {
    if kinds != [] {
      HandleAllClosed(d, AllButLast(kinds));
    }
  }

  /** Handling `a + b` is handling `a`, then `b` from where `a` left off. */
  lemma {:induction false} HandleAllAppend(d: DecoderState, a: seq<LineKind>, b: seq<LineKind>)
    ensures var first := HandleAll(d, a);
            var second := HandleAll(first.0, b);
            HandleAll(d, a + b) == (second.0, first.1 + second.1)
    decreases |b|
  {
    var first := HandleAll(d, a);
    if b == [] {
      assert a + b == a;
      assert first.1 + [] == first.1;
    } else {
      assert AllButLast(a + b) == a + AllButLast(b);
      assert Last(a + b) == Last(b);
      HandleAllAppend(d, a, AllButLast(b));
      var mid := HandleAll(first.0, AllButLast(b));
      assert HandleAll(d, a + AllButLast(b)) == (mid.0, first.1 + mid.1);
      if !mid.0.closed {
        var step := Handle(mid.0, Last(b));
        assert first.1 + mid.1 + step.1 == first.1 + (mid.1 + step.1);
      }
    }
  }

  lemma KindsAppend(a: seq<string>, b: seq<string>, decode: Parser)
    ensures Kinds(a + b, decode) == Kinds(a, decode) + Kinds(b, decode)
  {
    var ab := a + b;
    forall i | 0 <= i < |ab| ensures Kinds(ab, decode)[i] == (Kinds(a, decode) + Kinds(b, decode))[i] {
      if i < |a| { assert ab[i] == a[i]; } else { assert ab[i] == b[i - |a|]; }
    }
  }

  /** Processing the lines `a + b` is processing `a`, then `b` from where `a` left off. */
  lemma ProcessLinesAppend(d: DecoderState, a: seq<string>, b: seq<string>, decode: Parser)
    ensures var first := ProcessLines(d, a, decode);
            var second := ProcessLines(first.0, b, decode);
            ProcessLines(d, a + b, decode) == (second.0, first.1 + second.1)
  {
    KindsAppend(a, b, decode);
    HandleAllAppend(d, Kinds(a, decode), Kinds(b, decode));
  }

  /** The loop ends early exactly when one of its lines is the sentinel. */
  lemma {:induction false} ClosedIffTerminator(d: DecoderState, kinds: seq<LineKind>)
    requires !d.closed
    ensures HandleAll(d, kinds).0.closed <==> HasTerminator(kinds)
    decreases |kinds|
  {
    if kinds != [] {
      var before := AllButLast(kinds);
      ClosedIffTerminator(d, before);
      if HasTerminator(before) {
        var i :| 0 <= i < |before| && before[i].Terminator?;
        assert kinds[i] == before[i];
      } else if !Last(kinds).Terminator? {
        forall i | 0 <= i < |kinds| ensures !kinds[i].Terminator? {
          if i < |before| { assert kinds[i] == before[i]; }
        }
      }
    }
  }

  /** One more line after the lines `p`. */
  lemma HandleAllSnoc(d: DecoderState, p: seq<LineKind>, k: LineKind)
    ensures var before := HandleAll(d, p);
            var step := Handle(before.0, k);
            HandleAll(d, p + [k]) == if before.0.closed then before else (step.0, before.1 + step.1)
  {
    assert AllButLast(p + [k]) == p && Last(p + [k]) == k;
  }

  /** One more line after the lines `p`, as the line loop takes it. */
  lemma ProcessLinesSnoc(d: DecoderState, p: seq<string>, line: string, decode: Parser)
    ensures var before := ProcessLines(d, p, decode);
            var step := ProcessLine(before.0, line, decode);
            ProcessLines(d, p + [line], decode) == if before.0.closed then before else (step.0, before.1 + step.1)
  {
    KindsAppend(p, [line], decode);
    HandleAllSnoc(d, Kinds(p, decode), Classify(line, decode));
  }

  /** Once a prefix of the lines has reached the sentinel, the remaining lines add nothing. */
  lemma ProcessLinesPrefixClosed(d: DecoderState, lines: seq<string>, i: nat, decode: Parser)
    requires i <= |lines|
    requires ProcessLines(d, lines[..i], decode).0.closed
    ensures ProcessLines(d, lines, decode) == ProcessLines(d, lines[..i], decode)
  {
    var first := ProcessLines(d, lines[..i], decode);
    assert lines == lines[..i] + lines[i..];
    ProcessLinesAppend(d, lines[..i], lines[i..], decode);
    HandleAllClosed(first.0, Kinds(lines[i..], decode));
    assert first.1 + [] == first.1;
  }

  /**
   * A line that is not a `data:` line changes nothing: the lines around it are
   * processed as if it were not there.
   */
  lemma IgnoredLineSkipped(d: DecoderState, a: seq<LineKind>, b: seq<LineKind>)
    ensures HandleAll(d, a + [Ignored] + b) == HandleAll(d, a + b)
  {
    var first := HandleAll(d, a);
    HandleAllAppend(d, a + [Ignored], b);
    HandleAllSnoc(d, a, Ignored);
    HandleAllAppend(d, a, b);
    assert first.1 + [] == first.1;
    assert HandleAll(d, a + [Ignored]) == first;
  }

  /**
   * A `data:` line whose payload is not JSON gives one error event and leaves
   * the state as it was, so the following lines are processed as usual.
   */
  lemma MalformedLineReported(d: DecoderState, a: seq<LineKind>, b: seq<LineKind>)
    requires !HandleAll(d, a).0.closed
    ensures var first := HandleAll(d, a);
            var rest := HandleAll(first.0, b);
            HandleAll(d, a + [Malformed] + b) == (rest.0, first.1 + [InvalidFormat] + rest.1)
  {
    var first := HandleAll(d, a);
    HandleAllAppend(d, a + [Malformed], b);
    HandleAllSnoc(d, a, Malformed);
    assert HandleAll(d, a + [Malformed]) == (first.0, first.1 + [InvalidFormat]);
  }

  /**
   * The sentinel line ends the stream: it gives `data:[DONE]` and nothing after
   * it, the deltas still pending are not sent, and no later line is processed.
   */
  lemma SentinelEndsStream(d: DecoderState, a: seq<LineKind>, b: seq<LineKind>)
    requires !HandleAll(d, a).0.closed
    ensures var first := HandleAll(d, a);
            HandleAll(d, a + [Terminator] + b) == (first.0.(closed := true), first.1 + [Done])
  {
    var first := HandleAll(d, a);
    HandleAllAppend(d, a + [Terminator], b);
    HandleAllSnoc(d, a, Terminator);
    HandleAllClosed(first.0.(closed := true), b);
    var none: seq<Event> := [];
    assert first.1 + [Done] + none == first.1 + [Done];
  }

  /**
   * The shape of what the line loop sends: every event is an error, the
   * sentinel or a group of exactly five deltas; the sentinel comes last if at
   * all; and fewer than five deltas stay pending, the last of them being the
   * last accepted delta.
   */
  lemma {:induction false} HandleAllShape(d: DecoderState, kinds: seq<LineKind>)
    requires !d.closed && Coherent(d)
    ensures var r := HandleAll(d, kinds);
            && Coherent(r.0)
            && (forall i :: 0 <= i < |r.1| ==> MidStream(r.1[i]))
            && (forall i :: 0 <= i < |r.1| && r.1[i] == Done ==> i == |r.1| - 1 && r.0.closed)
            && (r.0.closed ==> r.1 != [] && Last(r.1) == Done)
    decreases |kinds|
  {
    if kinds != [] {
      var before := HandleAll(d, AllButLast(kinds));
      HandleAllShape(d, AllButLast(kinds));
      if !before.0.closed {
        var step := Handle(before.0, Last(kinds));
        var all := before.1 + step.1;
        assert |step.1| <= 1;
        forall i | 0 <= i < |all| ensures MidStream(all[i]) {
          if i >= |before.1| { assert all[i] == step.1[i - |before.1|]; }
        }
      }
    }
  }

  // ----- chunks -----

  /** After the sentinel no chunk is read. */
  lemma {:induction false} FeedAllClosed(s: StreamState, chunks: seq<string>, decode: Parser)
    requires s.decoder.closed
    ensures FeedAll(s, chunks, decode) == (s, [])
    decreases |chunks|
  {
    if chunks != [] {
      FeedAllClosed(s, AllButLast(chunks), decode);
      assert FeedChunk(s, Last(chunks), decode) == (s, []);
      var none: seq<Event> := [];
      assert none + none == none;
    }
  }

  /** Once a prefix of the chunks has reached the sentinel, the remaining chunks add nothing. */
  lemma {:induction false} FeedAllPrefixClosed(s: StreamState, chunks: seq<string>, i: nat, decode: Parser)
    requires i <= |chunks|
    requires FeedAll(s, chunks[..i], decode).0.decoder.closed
    ensures FeedAll(s, chunks, decode) == FeedAll(s, chunks[..i], decode)
    decreases |chunks|
  {
    if i < |chunks| {
      var p := AllButLast(chunks);
      assert p[..i] == chunks[..i];
      FeedAllPrefixClosed(s, p, i, decode);
      var before := FeedAll(s, p, decode);
      var none: seq<Event> := [];
      assert FeedChunk(before.0, Last(chunks), decode) == (before.0, none);
      assert before.1 + none == before.1;
    } else {
      assert chunks[..i] == chunks;
    }
  }

  /**
   * Line framing does not depend on the chunking: feeding chunks processes
   * exactly the lines that the newlines of the buffer and the concatenated
   * chunks complete, and keeps the unterminated rest as the buffer.
   */
  lemma {:induction false} Framing(s: StreamState, chunks: seq<string>, decode: Parser)
    requires '\n' !in s.buffer && !s.decoder.closed
    ensures var r := FeedAll(s, chunks, decode);
            var lines := Split(s.buffer + Concat(chunks));
            && (r.0.decoder, r.1) == ProcessLines(s.decoder, AllButLast(lines), decode)
            && (!r.0.decoder.closed ==> r.0.buffer == Last(lines))
    decreases |chunks|
  {
    if chunks == [] {
      assert s.buffer + Concat(chunks) == s.buffer;
      SplitNoNewline(s.buffer);
      assert AllButLast([s.buffer]) == [];
    } else {
      var prefix, c := AllButLast(chunks), Last(chunks);
      Framing(s, prefix, decode);
      FramingStep(s, prefix, c, decode);
    }
  }

  lemma FeedAllSnoc(s: StreamState, prefix: seq<string>, c: string, decode: Parser)
    ensures var before := FeedAll(s, prefix, decode);
            var step := FeedChunk(before.0, c, decode);
            FeedAll(s, prefix + [c], decode) == (step.0, before.1 + step.1)
  {
    assert AllButLast(prefix + [c]) == prefix && Last(prefix + [c]) == c;
  }

  /** The body after the buffer, with one more chunk. */
  lemma ConcatSnoc(buffer: string, chunks: seq<string>, c: string)
    ensures buffer + Concat(chunks + [c]) == buffer + Concat(chunks) + c
  {
    assert (chunks + [c])[..|chunks|] == chunks;
  }

  /** One chunk, before the sentinel: the lines it completes, and the rest as the buffer. */
  lemma FeedChunkLines(st: StreamState, c: string, decode: Parser)
    requires '\n' !in st.buffer && !st.decoder.closed
    ensures var r := FeedChunk(st, c, decode);
            var m := Split(st.buffer + c);
            && (r.0.decoder, r.1) == ProcessLines(st.decoder, AllButLast(m), decode)
            && (!r.0.decoder.closed ==> r.0.buffer == Last(m))
  {
    if c == [] {
      assert st.buffer + c == st.buffer;
      SplitNoNewline(st.buffer);
      assert AllButLast([st.buffer]) == [];
      assert Kinds([], decode) == [];
    }
  }

  /** The step of `Framing` for one more chunk. */
  lemma FramingStep(s: StreamState, prefix: seq<string>, c: string, decode: Parser)
    requires '\n' !in s.buffer && !s.decoder.closed
    requires var r := FeedAll(s, prefix, decode);
             var lines := Split(s.buffer + Concat(prefix));
             && (r.0.decoder, r.1) == ProcessLines(s.decoder, AllButLast(lines), decode)
             && (!r.0.decoder.closed ==> r.0.buffer == Last(lines))
    ensures var r := FeedAll(s, prefix + [c], decode);
            var lines := Split(s.buffer + Concat(prefix + [c]));
            && (r.0.decoder, r.1) == ProcessLines(s.decoder, AllButLast(lines), decode)
            && (!r.0.decoder.closed ==> r.0.buffer == Last(lines))
  {
    var r1 := FeedAll(s, prefix, decode);
    var x := s.buffer + Concat(prefix);
    var xs := Split(x);
    var m := Split(Last(xs) + c);
    FeedAllSnoc(s, prefix, c, decode);
    ConcatSnoc(s.buffer, prefix, c);
    SplitSnoc(x, c);
    ProcessLinesAppend(s.decoder, AllButLast(xs), AllButLast(m), decode);
    var none: seq<Event> := [];
    if r1.0.decoder.closed {
      HandleAllClosed(r1.0.decoder, Kinds(AllButLast(m), decode));
      assert FeedChunk(r1.0, c, decode) == (r1.0, none);
      assert r1.1 + none == r1.1;
    } else {
      assert r1.0.buffer == Last(xs);
      FeedChunkLines(r1.0, c, decode);
    }
  }

  /**
   * Between chunks, until the sentinel: the buffer holds no newline and is
   * the unterminated rest of the body so far, and fewer than five deltas are
   * pending, the last of them being the last accepted delta.
   */
  lemma BetweenChunks(chunks: seq<string>, decode: Parser)
    ensures var r := FeedAll(InitialStream, chunks, decode);
            && Coherent(r.0.decoder)
            && (!r.0.decoder.closed ==> r.0.buffer == Last(Split(Concat(chunks))) && '\n' !in r.0.buffer)
  {
    Framing(InitialStream, chunks, decode);
    assert InitialStream.buffer + Concat(chunks) == Concat(chunks);
    HandleAllShape(InitialDecoder, Kinds(CompletedLines(chunks), decode));
  }

  /** The output is a function of the completed lines alone. */
  lemma RunFromLines(up: Upstream, decode: Parser)
    ensures var r := ProcessLines(InitialDecoder, CompletedLines(up.chunks), decode);
            Run(up, decode) == Finish(r.0, r.1, up.failure)
  {
    Framing(InitialStream, up.chunks, decode);
    assert InitialStream.buffer + Concat(up.chunks) == Concat(up.chunks);
  }

  /** Chunk-boundary independence: two chunkings of the same body give the same output. */
  lemma SameBodySameOutput(c1: seq<string>, c2: seq<string>, failure: Option<string>, decode: Parser)
    requires Concat(c1) == Concat(c2)
    ensures Run(Upstream(c1, failure), decode) == Run(Upstream(c2, failure), decode)
  {
    RunFromLines(Upstream(c1, failure), decode);
    RunFromLines(Upstream(c2, failure), decode);
  }

  /**
   * What follows the last newline is never decoded: a final chunk without a
   * newline changes nothing, even when it holds a whole `data:` line.
   */
  lemma TrailingFragmentIgnored(chunks: seq<string>, fragment: string, failure: Option<string>, decode: Parser)
    requires '\n' !in fragment
    ensures Run(Upstream(chunks + [fragment], failure), decode) == Run(Upstream(chunks, failure), decode)
  {
    var all := chunks + [fragment];
    assert AllButLast(all) == chunks;
    assert Concat(all) == Concat(chunks) + fragment;
    var xs := Split(Concat(chunks));
    SplitAppend(Concat(chunks), fragment);
    var tail := Last(xs) + fragment;
    assert '\n' !in tail by {
      assert '\n' !in Last(xs);
      forall i | 0 <= i < |tail| ensures tail[i] != '\n' {
        if i < |Last(xs)| { assert tail[i] == Last(xs)[i]; } else { assert tail[i] == fragment[i - |Last(xs)|]; }
      }
    }
    SplitNoNewline(tail);
    assert CompletedLines(all) == CompletedLines(chunks);
    RunFromLines(Upstream(all, failure), decode);
    RunFromLines(Upstream(chunks, failure), decode);
  }

  // ----- tokens -----

  lemma {:induction false} EmittedAppend(a: seq<Event>, b: seq<Event>)
    ensures Emitted(a + b) == Emitted(a) + Emitted(b)
    decreases |b|
  {
    if b == [] {
      assert a + b == a;
    } else {
      assert AllButLast(a + b) == a + AllButLast(b);
      assert Last(a + b) == Last(b);
      EmittedAppend(a, AllButLast(b));
    }
  }

  /**
   * Order preservation: the deltas leave in the order they arrived, minus the
   * empty ones and the repeats that duplicate suppression drops, and what has
   * not left yet is the pending buffer.
   */
  lemma {:induction false} TokenOrder(d: DecoderState, kinds: seq<LineKind>)
    requires !d.closed
    ensures var r := HandleAll(d, kinds);
            var kept := Dedupe(d.previousToken, Deltas(kinds));
            && d.tokenBuffer + kept == Emitted(r.1) + r.0.tokenBuffer
            && r.0.previousToken == LastKept(d.previousToken, kept)
    decreases |kinds|
  {
    if kinds == [] {
      assert Emitted([]) == [];
    } else {
      var p := AllButLast(kinds);
      TokenOrder(d, p);
      ClosedIffTerminator(d, p);
      if !HandleAll(d, p).0.closed {
        TokenOrderStep(d, p, Last(kinds));
        assert p + [Last(kinds)] == kinds;
      }
    }
  }

  lemma DeltasSnoc(p: seq<LineKind>, k: LineKind)
    requires !HasTerminator(p)
    ensures Deltas(p + [k]) == Deltas(p) + DeltaOf(k)
  {
    assert AllButLast(p + [k]) == p && Last(p + [k]) == k;
  }

  lemma DedupeSnoc(prev: Option<string>, xs: seq<string>, x: string)
    ensures var kept := Dedupe(prev, xs);
            Dedupe(prev, xs + [x]) == if x != "" && Some(x) != LastKept(prev, kept) then kept + [x] else kept
  {
    assert AllButLast(xs + [x]) == xs && Last(xs + [x]) == x;
  }

  lemma EmittedSnoc(a: seq<Event>, e: Event)
    ensures Emitted(a + [e]) == Emitted(a) + (match e case Tokens(b) => b case _ => [])
  {
    assert AllButLast(a + [e]) == a && Last(a + [e]) == e;
  }

  /** One line keeps the order invariant of `TokenOrder`, with `kept` growing as `Dedupe` does. */
  lemma HandleKeepsOrder(prev: Option<string>, base: seq<string>, kept: seq<string>, emitted: seq<string>,
                         st: DecoderState, k: LineKind)
    requires base + kept == emitted + st.tokenBuffer
    requires st.previousToken == LastKept(prev, kept)
    ensures var step := Handle(st, k);
            var more := k.Delta? && k.content != "" && Some(k.content) != LastKept(prev, kept);
            var kept2 := if more then kept + [k.content] else kept;
            && base + kept2 == emitted + Emitted(step.1) + step.0.tokenBuffer
            && step.0.previousToken == LastKept(prev, kept2)
  {
    var step := Handle(st, k);
    match k
    case Delta(c) =>
      if c != "" && Some(c) != st.previousToken {
        var pending := st.tokenBuffer + [c];
        assert base + (kept + [c]) == emitted + pending by {
          assert base + (kept + [c]) == (base + kept) + [c];
          assert emitted + pending == (emitted + st.tokenBuffer) + [c];
        }
        if |pending| >= Threshold {
          EmittedSnoc([], Tokens(pending));
          assert Emitted(step.1) == pending && step.0.tokenBuffer == [];
          assert emitted + pending + [] == emitted + pending;
        } else {
          assert Emitted(step.1) == [] && step.0.tokenBuffer == pending;
          assert emitted + [] == emitted;
        }
      } else {
        assert Emitted(step.1) == [] && step.0 == st;
        assert emitted + [] == emitted;
      }
    case Malformed =>
      EmittedSnoc([], InvalidFormat);
    case Ignored =>
      assert Emitted(step.1) == [];
      assert emitted + [] == emitted;
    case Terminator =>
      EmittedSnoc([], Done);
  }

  /** The step of `TokenOrder` for one more line. */
  lemma TokenOrderStep(d: DecoderState, p: seq<LineKind>, k: LineKind)
    requires !d.closed && !HandleAll(d, p).0.closed && !HasTerminator(p)
    requires var r := HandleAll(d, p);
             var kept := Dedupe(d.previousToken, Deltas(p));
             && d.tokenBuffer + kept == Emitted(r.1) + r.0.tokenBuffer
             && r.0.previousToken == LastKept(d.previousToken, kept)
    ensures var r := HandleAll(d, p + [k]);
            var kept := Dedupe(d.previousToken, Deltas(p + [k]));
            && d.tokenBuffer + kept == Emitted(r.1) + r.0.tokenBuffer
            && r.0.previousToken == LastKept(d.previousToken, kept)
  {
    var before := HandleAll(d, p);
    var kept := Dedupe(d.previousToken, Deltas(p));
    HandleAllSnoc(d, p, k);
    DeltasSnoc(p, k);
    var step := Handle(before.0, k);
    HandleKeepsOrder(d.previousToken, d.tokenBuffer, kept, Emitted(before.1), before.0, k);
    EmittedAppend(before.1, step.1);
    if k.Delta? {
      DedupeSnoc(d.previousToken, Deltas(p), k.content);
    } else {
      assert Deltas(p) + DeltaOf(k) == Deltas(p);
    }
  }

  /**
   * The tokens the whole stream sends are the accepted deltas in arrival
   * order: all of them when the body ends without `[DONE]` and without a
   * transport error, otherwise the ones sent before the end (those still
   * pending are lost).
   */
  lemma RunTokens(up: Upstream, decode: Parser)
    ensures var kinds := Kinds(CompletedLines(up.chunks), decode);
            var kept := Dedupe(None, Deltas(kinds));
            && Emitted(Run(up, decode)) <= kept
            && (up.failure == None && !HasTerminator(kinds) ==> Emitted(Run(up, decode)) == kept)
  {
    var kinds := Kinds(CompletedLines(up.chunks), decode);
    var r := HandleAll(InitialDecoder, kinds);
    RunFromLines(up, decode);
    TokenOrder(InitialDecoder, kinds);
    ClosedIffTerminator(InitialDecoder, kinds);
    var kept := Dedupe(None, Deltas(kinds));
    assert kept == Emitted(r.1) + r.0.tokenBuffer;
    if !r.0.closed {
      var tail := match up.failure case Some(m) => [TransportError(m)] case None => FinalFlush(r.0);
      assert Finish(r.0, r.1, up.failure) == r.1 + tail;
      EmittedAppend(r.1, tail);
      if tail != [] { assert AllButLast(tail) == []; }
    }
  }

  /**
   * Duplicate suppression holds across group boundaries: no token the stream
   * sends is empty, and no two consecutive tokens are equal, even when they
   * are sent in different events.
   */
  lemma NoAdjacentDuplicates(up: Upstream, decode: Parser)
    ensures var sent := Emitted(Run(up, decode));
            && (forall i :: 0 <= i < |sent| ==> sent[i] != "")
            && (forall i :: 0 <= i < |sent| - 1 ==> sent[i] != sent[i + 1])
  {
    RunTokens(up, decode);
    var kept := Dedupe(None, Deltas(Kinds(CompletedLines(up.chunks), decode)));
    PrefixNoAdjacent(Emitted(Run(up, decode)), kept);
  }

  /** A prefix of a sequence without empty tokens and adjacent repeats has neither. */
  lemma PrefixNoAdjacent(sent: seq<string>, kept: seq<string>)
    requires sent <= kept
    requires forall i :: 0 <= i < |kept| ==> kept[i] != ""
    requires forall i :: 0 <= i < |kept| - 1 ==> kept[i] != kept[i + 1]
    ensures forall i :: 0 <= i < |sent| ==> sent[i] != ""
    ensures forall i :: 0 <= i < |sent| - 1 ==> sent[i] != sent[i + 1]
  {
    forall i | 0 <= i < |sent| - 1 ensures sent[i] != sent[i + 1] {
      assert sent[i] == kept[i] && sent[i + 1] == kept[i + 1];
    }
  }

  // ----- the end of the stream -----

  /**
   * The shape of the whole output: token events carry one to five deltas, and
   * exactly five unless the event is the last one; `data:[DONE]` is the last
   * event exactly when a completed line is the sentinel; a transport error
   * gives one error event that ends the stream, and the only one when the
   * connection failed before any chunk.
   */
  lemma RunShape(up: Upstream, decode: Parser)
    ensures var out := Run(up, decode);
            var kinds := Kinds(CompletedLines(up.chunks), decode);
            && (forall i :: 0 <= i < |out| && out[i].Tokens? ==> 0 < |out[i].batch| <= Threshold)
            && (forall i :: 0 <= i < |out| - 1 && out[i].Tokens? ==> |out[i].batch| == Threshold)
            && (forall i :: 0 <= i < |out| - 1 ==> !out[i].Done? && !out[i].TransportError?)
            && (HasTerminator(kinds) <==> out != [] && Last(out) == Done)
            && (up.failure.Some? && !HasTerminator(kinds) ==> out != [] && Last(out) == TransportError(up.failure.value))
            && (up.chunks == [] && up.failure.Some? ==> out == [TransportError(up.failure.value)])
  {
    var kinds := Kinds(CompletedLines(up.chunks), decode);
    var r := HandleAll(InitialDecoder, kinds);
    RunFromLines(up, decode);
    HandleAllShape(InitialDecoder, kinds);
    ClosedIffTerminator(InitialDecoder, kinds);
    var out := Finish(r.0, r.1, up.failure);
    if !r.0.closed {
      var tail := match up.failure case Some(m) => [TransportError(m)] case None => FinalFlush(r.0);
      assert out == r.1 + tail;
      assert |tail| <= 1;
      forall i | 0 <= i < |out| ensures out[i].Tokens? ==> 0 < |out[i].batch| <= Threshold {
        if i >= |r.1| { assert out[i] == tail[i - |r.1|]; }
      }
      forall i | 0 <= i < |out| - 1
        ensures !out[i].Done? && !out[i].TransportError? && (out[i].Tokens? ==> |out[i].batch| == Threshold)
      {
        assert out[i] == r.1[i];
      }
      if up.chunks == [] {
        assert Concat(up.chunks) == [];
        assert CompletedLines(up.chunks) == [];
      }
    }
  }

  /**
   * At the sentinel the stream stops: the output is what the lines before it
   * produced followed by `data:[DONE]`; no pending deltas are flushed, and
   * later lines, later chunks and a later transport error add nothing.
   */
  lemma RunStopsAtSentinel(up: Upstream, before: seq<LineKind>, after: seq<LineKind>, decode: Parser)
    requires Kinds(CompletedLines(up.chunks), decode) == before + [Terminator] + after
    requires !HasTerminator(before)
    ensures Run(up, decode) == HandleAll(InitialDecoder, before).1 + [Done]
  {
    RunFromLines(up, decode);
    ClosedIffTerminator(InitialDecoder, before);
    SentinelEndsStream(InitialDecoder, before, after);
  }

  lemma PayloadOf(m: string, b: string, payload: string)
    requires AllSpace(b) && Trimmed(payload)
    requires m == DataPrefix + b + payload
    ensures StartsWith(m, DataPrefix) && Strip(m[|DataPrefix|..]) == payload
  {
    assert m[..5] == DataPrefix;
    assert m[5..] == b + payload + [];
    StripSurrounding(b, payload, []);
  }

  lemma DataLineStrips(a: string, b: string, payload: string, c: string)
    requires AllSpace(a) && AllSpace(c) && Trimmed(payload)
    ensures Strip(a + DataPrefix + b + payload + c) == DataPrefix + b + payload
  {
    var m := DataPrefix + b + payload;
    assert m[0] == 'd' && m[|m| - 1] == payload[|payload| - 1];
    StripSurrounding(a, m, c);
    assert a + DataPrefix + b + payload + c == a + m + c;
  }

  lemma ClassifyStripped(line: string, b: string, payload: string, decode: Parser)
    requires AllSpace(b) && Trimmed(payload)
    requires Strip(line) == DataPrefix + b + payload
    ensures var k := Classify(line, decode);
            && (payload == Sentinel ==> k == Terminator)
            && (payload != Sentinel && decode(payload).ParseErr? ==> k == Malformed)
            && (payload != Sentinel && decode(payload).ParseOk? ==> k == Delta(decode(payload).content))
  {
    PayloadOf(Strip(line), b, payload);
  }

  /** Two runs of whitespace make one. */
  lemma AllSpaceAppend(b: string, c: string)
    requires AllSpace(b) && AllSpace(c)
    ensures AllSpace(b + c)
  {
    forall i | 0 <= i < |b + c| ensures IsSpace((b + c)[i]) {
      if i < |b| { assert (b + c)[i] == b[i]; } else { assert (b + c)[i] == c[i - |b|]; }
    }
  }

  /**
   * A bare `data:` line, with only whitespace around it and after the colon,
   * has the empty payload: it means what decoding `""` gives, which for
   * `json.loads` is an invalid-format event.
   */
  lemma ClassifyBareDataField(a: string, s: string, decode: Parser)
    requires AllSpace(a) && AllSpace(s)
    ensures var k := Classify(a + DataPrefix + s, decode);
            && (decode("").ParseErr? ==> k == Malformed)
            && (decode("").ParseOk? ==> k == Delta(decode("").content))
  {
    StripSurrounding(a, DataPrefix, s);
    var l := Strip(a + DataPrefix + s);
    assert l[..5] == DataPrefix;
    assert l[5..] == [] + [] + [];
    StripSurrounding([], [], []);
  }

  /**
   * A `data:` line, with any whitespace around it and after the colon, means
   * its payload: the sentinel when the payload is `[DONE]`, otherwise what
   * decoding the payload gives; a bare `data:` line has the empty payload.
   */
  lemma ClassifyDataField(a: string, b: string, payload: string, c: string, decode: Parser)
    requires AllSpace(a) && AllSpace(b) && AllSpace(c) && (payload == "" || Trimmed(payload))
    ensures var k := Classify(a + DataPrefix + b + payload + c, decode);
            && (payload == Sentinel ==> k == Terminator)
            && (payload != Sentinel && decode(payload).ParseErr? ==> k == Malformed)
            && (payload != Sentinel && decode(payload).ParseOk? ==> k == Delta(decode(payload).content))
  {
    if payload == "" {
      AllSpaceAppend(b, c);
      assert a + DataPrefix + b + payload + c == a + DataPrefix + (b + c);
      ClassifyBareDataField(a, b + c, decode);
    } else {
      DataLineStrips(a, b, payload, c);
      ClassifyStripped(a + DataPrefix + b + payload + c, b, payload, decode);
    }
  }

  lemma ExampleLines(l: string, t: string)
    requires '\n' !in l && '\n' !in t
    ensures CompletedLines([Join("\n", [l, l, l, l, l, t, ""])]) == [l, l, l, l, l, t]
  {
    var parts := [l, l, l, l, l, t, ""];
    var body := Join("\n", parts);
    forall i | 0 <= i < |parts| ensures '\n' !in parts[i] {
      assert parts[i] == l || parts[i] == t || parts[i] == "";
    }
    SplitJoin(parts);
    assert Concat([body]) == body by { assert AllButLast([body]) == []; }
  }

  lemma ExampleDataLine(decode: Parser)
    requires decode("x") == ParseOk("Hi")
    ensures Classify("data: x", decode) == Delta("Hi")
  {
    assert "data: x" == [] + DataPrefix + " " + "x" + [];
    ClassifyDataField([], " ", "x", [], decode);
  }

  lemma ExampleSentinelLine(decode: Parser)
    ensures Classify("data: [DONE]", decode) == Terminator
  {
    assert "data: [DONE]" == [] + DataPrefix + " " + Sentinel + [];
    ClassifyDataField([], " ", Sentinel, [], decode);
  }

  lemma ExampleKinds(l: string, t: string, decode: Parser)
    requires Classify(l, decode) == Delta("Hi") && Classify(t, decode) == Terminator
    ensures var hi := Delta("Hi");
            Kinds([l, l, l, l, l, t], decode) == [hi, hi, hi, hi, hi] + [Terminator] + []
  {
  }

  lemma ExampleRepeats()
    ensures var hi := Delta("Hi");
            HandleAll(InitialDecoder, [hi, hi, hi, hi, hi]) == (DecoderState(["Hi"], Some("Hi"), false), [])
  {
    var hi := Delta("Hi");
    var one := DecoderState(["Hi"], Some("Hi"), false);
    var none: seq<Event> := [];
    HandleAllSnoc(InitialDecoder, [], hi);
    assert [] + [hi] == [hi];
    assert [] + ["Hi"] == ["Hi"];
    assert none + none == none;
    assert HandleAll(InitialDecoder, [hi]) == (one, none);
    HandleAllSnoc(InitialDecoder, [hi], hi);
    assert [hi] + [hi] == [hi, hi];
    assert HandleAll(InitialDecoder, [hi, hi]) == (one, none);
    HandleAllSnoc(InitialDecoder, [hi, hi], hi);
    assert [hi, hi] + [hi] == [hi, hi, hi];
    HandleAllSnoc(InitialDecoder, [hi, hi, hi], hi);
    assert [hi, hi, hi] + [hi] == [hi, hi, hi, hi];
    HandleAllSnoc(InitialDecoder, [hi, hi, hi, hi], hi);
    assert [hi, hi, hi, hi] + [hi] == [hi, hi, hi, hi, hi];
  }

  /**
   * The same delta five times and then the sentinel, as one chunk: the repeats
   * are dropped, and the one accepted delta is still pending at `[DONE]`, so
   * the stream is `data:[DONE]` alone.
   */
  lemma RepeatedDeltaThenSentinel(decode: Parser)
    requires decode("x") == ParseOk("Hi")
    ensures var l := "data: x";
            var body := Join("\n", [l, l, l, l, l, "data: [DONE]", ""]);
            RenderAll(Run(Upstream([body], None), decode)) == ["data:[DONE]\n\n"]
  {
    var l := "data: x";
    var t := "data: [DONE]";
    var body := Join("\n", [l, l, l, l, l, t, ""]);
    var hi := Delta("Hi");
    var ks := [hi, hi, hi, hi, hi];
    assert '\n' !in l && '\n' !in t;
    ExampleLines(l, t);
    ExampleDataLine(decode);
    ExampleSentinelLine(decode);
    ExampleKinds(l, t, decode);
    assert !HasTerminator(ks);
    ExampleRepeats();
    RunStopsAtSentinel(Upstream([body], None), ks, [], decode);
    var none: seq<Event> := [];
    assert none + [Done] == [Done];
    assert Render(Done) == "data:[DONE]\n\n";
  }
}
