/** The decoder of the chat endpoint's streamed reply: a simplified subset of
    the `text/event-stream` format (section 9.2, "Server-sent events", of the
    WHATWG HTML Living Standard) in which every line is its own event, the
    field marker must be `data: ` with its space, and `data` lines are never
    joined.

    The decoder keeps a rolling text buffer. After each network chunk it
    cuts complete lines off the front of the buffer (`Scan`, run by
    `ScanChunk`); when the stream closes it gives the leftover buffer one
    best-effort pass (`Flush`, run by `FlushRest`). `JSON.parse` and the read
    of `choices[0].delta.content` are an oracle given as a parameter.

    The main result, `StreamReplyIgnoresChunking`, is that the reply the
    decoder accumulates is `Replies` of the whole received text, however the
    text is cut into chunks: the lines a malformed line holds back, and
    those a `[DONE]` in the last chunk holds back, are recovered by the
    final pass, and `[DONE]` and malformed lines never contribute text. */
module EventStream {
  import opened Text
  import opened Transcript

  /** What `JSON.Parse(oracle, payload)` followed by
      `parsed.choices?.[0]?.delta?.content` gives: an exception (a payload
      that is not JSON, or JSON such as `null` whose `.choices` throws), a
      missing content field, or the content that `+=` appends. */
  datatype Parsed = Malformed | NoContent | Content(text: string)

  /** `JSON.parse` as a table from payload to outcome. A stream is finite,
      so a finite table covers every payload it can carry; a payload the
      table does not list does not parse. */
  type Oracle = map<string, Parsed>

  function Parse(oracle: Oracle, json: string): Parsed {
    if json in oracle then oracle[json] else Malformed
  }

  /** How the decoder treats one line of the stream. */
  datatype LineKind = Ignored | Done | Payload(json: string)

  /** Whatever `Scan` leaves in the buffer, and the reply text it appended. */
  datatype Scanned = Scanned(rest: string, text: string)

  const DataPrefix: string := "data: "
  const DoneToken: string := "[DONE]"

  /** Comment lines (`:`), blank lines and lines without the `data: ` field
      carry nothing; otherwise the payload is what follows the prefix,
      trimmed, and `[DONE]` is the end marker. */
  function Classify(line: string): LineKind {
    if StartsWith(line, ":") || Trim(line) == "" then Ignored
    else if !StartsWith(line, DataPrefix) then Ignored
    else
      var json := Trim(line[|DataPrefix|..]);
      if json == DoneToken then Done else Payload(json)
  }

  /** The reply text one line carries: the content of a payload that parses
      with a content field, and nothing for every other line. */
  function Emit(line: string, oracle: Oracle): string {
    match Classify(line)
    case Payload(json) => (match Parse(oracle, json) case Content(c) => c case _ => "")
    case _ => ""
  }

  function EmitAll(lines: seq<string>, oracle: Oracle): string {
    if lines == [] then "" else Emit(lines[0], oracle) + EmitAll(lines[1..], oracle)
  }

  /** The reply carried by a stream text: the text of all its lines, in
      order. */
  function Replies(s: string, oracle: Oracle): string {
    EmitAll(Split(s), oracle)
  }

  /** What the scan does with the first line of the buffer: there is no
      complete line, or it stops with `rest` left in the buffer, or it goes
      on with `after` having appended `delta` (empty for a line that
      carries no text). */
  datatype Step = NoLine | Stop(rest: string) | Next(delta: string, after: string)

  /** One turn of the inner scan loop of `sendMessage`: the text up to the
      first newline is cut off, a trailing carriage return is stripped, and
      the line is ignored, ends the scan (`[DONE]`), is pushed back onto the
      front of the buffer (a payload that does not parse), or yields its
      content. */
  function NextStep(buffer: string, oracle: Oracle): (r: Step)
    ensures r.Next? ==> |r.after| < |buffer|
  {
    var i := IndexOf(buffer, '\n');
    if i < 0 then NoLine
    else
      var line := StripCR(buffer[..i]);
      var after := buffer[i + 1..];
      match Classify(line)
      case Ignored => Next("", after)
      case Done => Stop(after)
      case Payload(json) =>
        match Parse(oracle, json)
        case Malformed => Stop(line + "\n" + after)
        case NoContent => Next("", after)
        case Content(c) => Next(c, after)
  }

  /** The inner scan loop as a function: steps are taken until there is no
      complete line left or a step stops. */
  function Scan(buffer: string, oracle: Oracle): Scanned
    decreases |buffer|
  {
    match NextStep(buffer, oracle)
    case NoLine => Scanned(buffer, "")
    case Stop(rest) => Scanned(rest, "")
    case Next(delta, after) =>
      var r := Scan(after, oracle);
      Scanned(r.rest, delta + r.text)
  }

  /** The chunk loop of `sendMessage`: each chunk is appended to the buffer
      and the buffer is scanned. */
  function Feed(buffer: string, chunks: seq<string>, oracle: Oracle): Scanned
    decreases |chunks|
  {
    if chunks == [] then Scanned(buffer, "")
    else
      var s := Scan(buffer + chunks[0], oracle);
      var f := Feed(s.rest, chunks[1..], oracle);
      Scanned(f.rest, s.text + f.text)
  }

  /** The final pass over the leftover buffer, skipped when it is blank. */
  function Flush(buffer: string, oracle: Oracle): string {
    if Trim(buffer) == "" then "" else Replies(buffer, oracle)
  }

  /** The reply `sendMessage` accumulates from a whole stream. */
  function StreamReply(chunks: seq<string>, oracle: Oracle): string {
    var f := Feed("", chunks, oracle);
    f.text + Flush(f.rest, oracle)
  }

  function Concat(chunks: seq<string>): string {
    if chunks == [] then "" else chunks[0] + Concat(chunks[1..])
  }

  // ---------------------------------------------------------------------
  // The decoder's methods, as the hook runs them

  /** One turn of the inner `while` loop: the first line is cut off the
      buffer and handled. A non-empty delta is appended to the accumulated
      reply, and the transcript's last assistant message is set to the reply
      so far. `stop` is set when the loop ends: no newline is left, `[DONE]`
      was read, or a malformed payload was pushed back. */
  method TakeLine(buffer0: string, acc0: string, msgs0: seq<Message>, oracle: Oracle)
    returns (buffer: string, acc: string, msgs: seq<Message>, stop: bool)
    ensures var step := NextStep(buffer0, oracle);
      && stop == !step.Next?
      && buffer == (match step case NoLine => buffer0 case Stop(rest) => rest case Next(_, after) => after)
      && acc == (if step.Next? then acc0 + step.delta else acc0)
      && msgs == (if step.Next? && step.delta != "" then UpdateLast(msgs0, acc) else msgs0)
  {
    buffer, acc, msgs, stop := buffer0, acc0, msgs0, false;
    var newlineIndex := IndexOf(buffer, '\n');
    if newlineIndex == -1 {
      stop := true;
      return;
    }
    var line := buffer[..newlineIndex];
    buffer := buffer[newlineIndex + 1..];
    if |line| > 0 && line[|line| - 1] == '\r' {
      line := line[..|line| - 1];
    }
    assert line == StripCR(buffer0[..newlineIndex]);
    if StartsWith(line, ":") || Trim(line) == "" {
      assert Classify(line) == Ignored;
      return;
    }
    if !StartsWith(line, DataPrefix) {
      assert Classify(line) == Ignored;
      return;
    }
    var jsonStr := Trim(line[|DataPrefix|..]);
    if jsonStr == DoneToken {
      assert Classify(line) == Done;
      stop := true;
      return;
    }
    assert Classify(line) == Payload(jsonStr);
    match Parse(oracle, jsonStr)
    case Malformed =>
      buffer := line + "\n" + buffer;
      stop := true;
    case NoContent =>
    case Content(content) =>
      if content != "" {
        acc := acc + content;
        msgs := UpdateLast(msgs, acc);
      }
  }

  /** The inner `while` loop run after a chunk has been appended to the
      buffer: what it leaves in the buffer and appends to the reply is
      `Scan`'s, and the transcript shows the reply so far in its last
      assistant message. */
  method ScanChunk(buffer0: string, acc0: string, msgs0: seq<Message>, oracle: Oracle)
    returns (buffer: string, acc: string, msgs: seq<Message>)
    ensures buffer == Scan(buffer0, oracle).rest
    ensures acc == acc0 + Scan(buffer0, oracle).text
    ensures msgs == if Scan(buffer0, oracle).text == "" then msgs0 else UpdateLast(msgs0, acc)
  {
    buffer, acc, msgs := buffer0, acc0, msgs0;
    while true
      invariant Scan(buffer0, oracle).rest == Scan(buffer, oracle).rest
      invariant acc0 + Scan(buffer0, oracle).text == acc + Scan(buffer, oracle).text
      invariant |acc0| <= |acc|
      invariant msgs == if |acc| == |acc0| then msgs0 else UpdateLast(msgs0, acc)
      decreases |buffer|
    {
      ghost var before, accBefore, msgsBefore := buffer, acc, msgs;
      var stop;
      buffer, acc, msgs, stop := TakeLine(buffer, acc, msgs, oracle);
      if stop {
        assert acc == accBefore && msgs == msgsBefore;
        assert Scan(before, oracle) == Scanned(buffer, "");
        break;
      }
      ghost var delta := NextStep(before, oracle).delta;
      AppendAssoc(accBefore, delta, Scan(buffer, oracle).text);
      if delta == "" {
        assert acc == accBefore;
      } else if |accBefore| != |acc0| {
        UpdateLastTwice(msgs0, accBefore, acc);
      }
    }
  }

  /** The outer read loop: each chunk is appended to the buffer and the
      buffer is scanned. What is left and what was accumulated are `Feed`'s,
      and the transcript shows the reply so far. */
  method ReadChunks(chunks: seq<string>, msgs0: seq<Message>, oracle: Oracle)
    returns (buffer: string, acc: string, msgs: seq<Message>)
    ensures buffer == Feed("", chunks, oracle).rest
    ensures acc == Feed("", chunks, oracle).text
    ensures msgs == if acc == "" then msgs0 else UpdateLast(msgs0, acc)
  {
    buffer, acc, msgs := "", "", msgs0;
    for k := 0 to |chunks|
      invariant Feed(buffer, chunks[k..], oracle).rest == Feed("", chunks, oracle).rest
      invariant acc + Feed(buffer, chunks[k..], oracle).text == Feed("", chunks, oracle).text
      invariant msgs == if |acc| == 0 then msgs0 else UpdateLast(msgs0, acc)
    {
      ghost var accBefore, msgsBefore := acc, msgs;
      FeedFrom(buffer, chunks, k, oracle);
      ghost var s := Scan(buffer + chunks[k], oracle);
      AppendAssoc(acc, s.text, Feed(s.rest, chunks[k + 1..], oracle).text);
      buffer := buffer + chunks[k];
      buffer, acc, msgs := ScanChunk(buffer, acc, msgs, oracle);
      if s.text == "" {
        assert acc == accBefore;
      } else if |accBefore| != 0 {
        UpdateLastTwice(msgs0, accBefore, acc);
      }
    }
    assert chunks[|chunks|..] == [];
    assert acc + "" == acc;
  }

  /** The final best-effort pass: when the leftover buffer is not blank, it
      is split on newlines and every line is handled as mid-stream, except
      that `[DONE]` and malformed lines are skipped and never pushed back. */
  method FlushRest(buffer: string, acc0: string, msgs0: seq<Message>, oracle: Oracle)
    returns (acc: string, msgs: seq<Message>)
    ensures acc == acc0 + Flush(buffer, oracle)
    ensures msgs == if acc == acc0 then msgs0 else UpdateLast(msgs0, acc)
  {
    acc, msgs := acc0, msgs0;
    if Trim(buffer) != "" {
      var lines := Split(buffer);
      for k := 0 to |lines|
        invariant acc == acc0 + EmitAll(lines[..k], oracle)
        invariant |acc0| <= |acc|
        invariant msgs == if acc == acc0 then msgs0 else UpdateLast(msgs0, acc)
      {
        var line := lines[k];
        ghost var accBefore := acc;
        TakeSnoc(lines, k);
        EmitAllSnoc(lines[..k], line, oracle);
        AppendAssoc(acc0, EmitAll(lines[..k], oracle), Emit(line, oracle));
        if Trim(line) == "" || StartsWith(line, ":") {
        } else if !StartsWith(line, DataPrefix) {
        } else {
          var jsonStr := Trim(line[|DataPrefix|..]);
          if jsonStr != DoneToken {
            match Parse(oracle, jsonStr)
            case Malformed =>
            case NoContent =>
            case Content(content) =>
              if content != "" {
                acc := acc + content;
                if accBefore != acc0 {
                  UpdateLastTwice(msgs0, accBefore, acc);
                }
                msgs := UpdateLast(msgs, acc);
              }
          }
        }
      }
      assert lines[..|lines|] == lines;
    }
  }

  // ---------------------------------------------------------------------
  // Lemmas

  /** `Feed` over the chunks from `k` on takes chunk `k` first. */
  lemma FeedFrom(buffer: string, chunks: seq<string>, k: int, oracle: Oracle)
    requires 0 <= k < |chunks|
    ensures var s := Scan(buffer + chunks[k], oracle);
      var f := Feed(s.rest, chunks[k + 1..], oracle);
      Feed(buffer, chunks[k..], oracle) == Scanned(f.rest, s.text + f.text)
  {
    assert chunks[k..][0] == chunks[k];
    assert chunks[k..][1..] == chunks[k + 1..];
  }

  lemma {:induction false} EmitAllSnoc(lines: seq<string>, line: string, oracle: Oracle)
    ensures EmitAll(lines + [line], oracle) == EmitAll(lines, oracle) + Emit(line, oracle)
  {
    if lines != [] {
      assert (lines + [line])[1..] == lines[1..] + [line];
      EmitAllSnoc(lines[1..], line, oracle);
      AppendAssoc(Emit(lines[0], oracle), EmitAll(lines[1..], oracle), Emit(line, oracle));
    }
  }

  /** A line and a newline in front of more text add that line's text in
      front of the reply. */
  lemma RepliesLine(line: string, rest: string, oracle: Oracle)
    requires '\n' !in line
    ensures Replies(line + "\n" + rest, oracle) == Emit(line, oracle) + Replies(rest, oracle)
  {
    SplitLine(line, rest);
    assert ([line] + Split(rest))[1..] == Split(rest);
  }

  /** A carriage return before the newline never changes how the line is
      treated: the final pass, which does not strip it, and the scan, which
      does, agree on every line. */
  lemma ClassifyStripCR(line: string)
    ensures Classify(StripCR(line)) == Classify(line)
  {
    TrimStripCR(line);
    var x := StripCR(line);
    if x != line {
      assert line == x + ['\r'];
      if StartsWith(x, DataPrefix) {
        assert line[..|DataPrefix|] == x[..|DataPrefix|];
        assert line[|DataPrefix|..] == x[|DataPrefix|..] + ['\r'];
        TrimTrailingSpace(x[|DataPrefix|..], '\r');
      }
      if |x| > 0 {
        assert line[..1] == x[..1];
      }
    }
  }

  lemma EmitStripCR(line: string, oracle: Oracle)
    ensures Emit(StripCR(line), oracle) == Emit(line, oracle)
  {
    ClassifyStripCR(line);
  }

  /** The line cut off by one step, with the text after it: the first
      complete line carries the step's delta, a `[DONE]` line carries
      nothing, and a pushed-back line is the same line again. */
  lemma StepReplies(buffer: string, future: string, oracle: Oracle)
    ensures match NextStep(buffer, oracle)
      case NoLine => '\n' !in buffer
      case Stop(rest) => Replies(buffer + future, oracle) == Replies(rest + future, oracle)
      case Next(delta, after) => Replies(buffer + future, oracle) == delta + Replies(after + future, oracle)
  {
    if '\n' in buffer {
      StepEmit(buffer, oracle);
      FirstLineReplies(buffer, future, oracle);
      var i := IndexOf(buffer, '\n');
      PushedBackReplies(StripCR(buffer[..i]), buffer[i + 1..], future, oracle);
    }
  }

  /** The reply of a buffer with a complete line, and more text after it,
      is that line's text followed by the reply of the rest. */
  lemma FirstLineReplies(buffer: string, future: string, oracle: Oracle)
    requires '\n' in buffer
    ensures var i := IndexOf(buffer, '\n');
      '\n' !in StripCR(buffer[..i])
      && Replies(buffer + future, oracle)
         == Emit(StripCR(buffer[..i]), oracle) + Replies(buffer[i + 1..] + future, oracle)
  {
    var i := IndexOf(buffer, '\n');
    var raw := buffer[..i];
    NoNewlineBefore(buffer, i);
    CutAtNewline(buffer, i, future);
    RepliesLine(raw, buffer[i + 1..] + future, oracle);
    EmitStripCR(raw, oracle);
  }

  lemma PushedBackReplies(line: string, after: string, future: string, oracle: Oracle)
    requires '\n' !in line
    ensures Replies(line + "\n" + after + future, oracle) == Emit(line, oracle) + Replies(after + future, oracle)
  {
    AppendAssoc(line + "\n", after, future);
    RepliesLine(line, after + future, oracle);
  }

  /** One step, line by line: it either goes on past the first line with
      that line's text, or stops with nothing, leaving the text after the
      line or pushing the line back. */
  lemma StepEmit(buffer: string, oracle: Oracle)
    requires '\n' in buffer
    ensures var i := IndexOf(buffer, '\n');
      var line := StripCR(buffer[..i]);
      match NextStep(buffer, oracle)
      case NoLine => false
      case Stop(rest) => Emit(line, oracle) == "" && (rest == buffer[i + 1..] || rest == line + "\n" + buffer[i + 1..])
      case Next(delta, after) => after == buffer[i + 1..] && delta == Emit(line, oracle)
  {
  }

  /** The text before the first newline has no newline. */
  lemma NoNewlineBefore(s: string, i: int)
    requires 0 <= i <= |s| && forall k :: 0 <= k < i ==> s[k] != '\n'
    ensures '\n' !in s[..i] && '\n' !in StripCR(s[..i])
  {
    var p := s[..i];
    assert forall k :: 0 <= k < |p| ==> p[k] == s[k];
  }

  /** What one scan appends, followed by the reply of what it leaves in the
      buffer, is the reply of the buffer it started from: no line is lost
      or read twice, whatever text arrives after the buffer. */
  lemma {:induction false} ScanReplies(buffer: string, future: string, oracle: Oracle)
    ensures Replies(buffer + future, oracle)
         == Scan(buffer, oracle).text + Replies(Scan(buffer, oracle).rest + future, oracle)
    decreases |buffer|
  {
    StepReplies(buffer, future, oracle);
    match NextStep(buffer, oracle)
    case NoLine =>
    case Stop(rest) =>
    case Next(delta, after) =>
      ScanReplies(after, future, oracle);
      var r := Scan(after, oracle);
      AppendAssoc(delta, r.text, Replies(r.rest + future, oracle));
  }

  /** The chunk loop loses nothing either: the text it appended, followed by
      the reply of the leftover buffer, is the reply of everything
      received. */
  lemma {:induction false} FeedReplies(buffer: string, chunks: seq<string>, oracle: Oracle)
    ensures Replies(buffer + Concat(chunks), oracle)
         == Feed(buffer, chunks, oracle).text + Replies(Feed(buffer, chunks, oracle).rest, oracle)
    decreases |chunks|
  {
    if chunks == [] {
      assert buffer + Concat(chunks) == buffer;
    } else {
      var s := Scan(buffer + chunks[0], oracle);
      var f := Feed(s.rest, chunks[1..], oracle);
      AppendAssoc(buffer, chunks[0], Concat(chunks[1..]));
      ScanReplies(buffer + chunks[0], Concat(chunks[1..]), oracle);
      FeedReplies(s.rest, chunks[1..], oracle);
      AppendAssoc(s.text, f.text, Replies(f.rest, oracle));
    }
  }

  /** A blank leftover buffer carries no reply, so skipping it in the final
      pass loses nothing. */
  lemma {:induction false} BlankReplies(s: string, oracle: Oracle)
    requires AllSpace(s)
    ensures Replies(s, oracle) == ""
    decreases |s|
  {
    var i := IndexOf(s, '\n');
    if i < 0 {
      TrimBlank(s);
      assert Split(s) == [s] && [s][1..] == [];
      assert Emit(s, oracle) == "";
      assert EmitAll([s], oracle) == Emit(s, oracle) + EmitAll([], oracle);
    } else {
      AllSpaceDrop(s, i);
      AllSpaceDrop(s, i + 1);
      TrimBlank(s[..i]);
      NoNewlineBefore(s, i);
      assert s == s[..i] + "\n" + s[i + 1..];
      RepliesLine(s[..i], s[i + 1..], oracle);
      BlankReplies(s[i + 1..], oracle);
    }
  }

  lemma FlushIsReplies(buffer: string, oracle: Oracle)
    ensures Flush(buffer, oracle) == Replies(buffer, oracle)
  {
    if Trim(buffer) == "" {
      TrimBlank(buffer);
      BlankReplies(buffer, oracle);
    }
  }

  /** Chunk boundaries do not matter: the reply accumulated over the whole
      stream, mid-stream scans and final pass together, is the reply of the
      concatenated stream text. */
  lemma StreamReplyIgnoresChunking(chunks: seq<string>, oracle: Oracle)
    ensures StreamReply(chunks, oracle) == Replies(Concat(chunks), oracle)
  {
    FeedReplies("", chunks, oracle);
    assert "" + Concat(chunks) == Concat(chunks);
    FlushIsReplies(Feed("", chunks, oracle).rest, oracle);
  }

  /** Two chunkings of the same text give the same reply. */
  lemma SameTextSameReply(a: seq<string>, b: seq<string>, oracle: Oracle)
    requires Concat(a) == Concat(b)
    ensures StreamReply(a, oracle) == StreamReply(b, oracle)
  {
    StreamReplyIgnoresChunking(a, oracle);
    StreamReplyIgnoresChunking(b, oracle);
  }

  /** A buffer without a newline is left as it is and yields nothing: a
      frame split across chunks is only read once its newline arrives. */
  lemma ScanWaitsForNewline(buffer: string, oracle: Oracle)
    requires '\n' !in buffer
    ensures Scan(buffer, oracle) == Scanned(buffer, "")
  {
  }

  /** A comment line, a blank line or a line without the `data: ` field is
      consumed and yields nothing: the scan goes on with the text after
      it. */
  lemma IgnoredLineConsumed(line: string, rest: string, oracle: Oracle)
    requires '\n' !in line && Classify(line) == Ignored
    ensures Scan(line + "\n" + rest, oracle) == Scan(rest, oracle)
  {
    var buffer := line + "\n" + rest;
    IndexOfLine(line, rest);
    assert buffer[..|line|] == line && buffer[|line| + 1..] == rest;
    ClassifyStripCR(line);
    assert NextStep(buffer, oracle) == Next("", rest);
    var r := Scan(rest, oracle);
    assert "" + r.text == r.text;
  }

  /** The first complete line of the buffer is a payload that does not
      parse. */
  predicate MalformedFirst(buffer: string, oracle: Oracle) {
    '\n' in buffer
    && var line := StripCR(buffer[..IndexOf(buffer, '\n')]);
    Classify(line).Payload? && Parse(oracle, Classify(line).json) == Malformed
  }

  /** Push-back: when the first complete line is a payload that does not
      parse, the scan yields nothing and the buffer is what it was, except
      for one carriage return stripped from the end of that line; the line
      is still first, and still malformed. */
  lemma PushBack(buffer: string, oracle: Oracle)
    requires MalformedFirst(buffer, oracle)
    ensures var i := IndexOf(buffer, '\n');
      Scan(buffer, oracle) == Scanned(StripCR(buffer[..i]) + buffer[i..], "")
    ensures |buffer| - 1 <= |Scan(buffer, oracle).rest| <= |buffer|
    ensures MalformedFirst(Scan(buffer, oracle).rest, oracle)
  {
    var i := IndexOf(buffer, '\n');
    var line := StripCR(buffer[..i]);
    CutAtNewline(buffer, i, "");
    AppendAssoc(line, "\n", buffer[i + 1..]);
    NoNewlineBefore(buffer, i);
    var rest := line + "\n" + buffer[i + 1..];
    IndexOfLine(line, buffer[i + 1..]);
    assert rest[..|line|] == line;
    ClassifyStripCR(line);
  }

  /** More text after the buffer leaves its first line as it is. */
  lemma MalformedFirstAppend(buffer: string, t: string, oracle: Oracle)
    requires MalformedFirst(buffer, oracle)
    ensures MalformedFirst(buffer + t, oracle)
  {
    var i := IndexOf(buffer, '\n');
    IndexOfAppend(buffer, t, '\n');
    assert (buffer + t)[..i] == buffer[..i];
  }

  /** `[DONE]` stops the scan of the current chunk only: the rest of the
      buffer is kept for the next chunk. */
  lemma DoneStopsThisScan(buffer: string, oracle: Oracle)
    requires '\n' in buffer
    requires Classify(StripCR(buffer[..IndexOf(buffer, '\n')])) == Done
    ensures Scan(buffer, oracle) == Scanned(buffer[IndexOf(buffer, '\n') + 1..], "")
  {
  }

  /** ... and it does not end the reply: lines after `[DONE]` contribute
      exactly as if it were absent. */
  lemma DoneDoesNotEndReply(rest: string, oracle: Oracle)
    ensures Replies("data: [DONE]\n" + rest, oracle) == Replies(rest, oracle)
  {
    var line := "data: [DONE]";
    assert line + "\n" + rest == "data: [DONE]\n" + rest;
    assert !IsSpace(line[0]) && !IsSpace(line[|line| - 1]);
    assert line[..1] == "d";
    assert line[..|DataPrefix|] == DataPrefix;
    var json := line[|DataPrefix|..];
    assert json == DoneToken;
    assert !IsSpace(json[0]) && !IsSpace(json[|json| - 1]);
    assert Classify(line) == Done;
    RepliesLine(line, rest, oracle);
  }

  /** A complete line whose payload does not parse blocks the scan for the
      rest of the stream: every later chunk yields nothing mid-stream. */
  lemma {:induction false} MalformedLineBlocks(buffer: string, chunks: seq<string>, oracle: Oracle)
    requires MalformedFirst(buffer, oracle)
    ensures Feed(buffer, chunks, oracle).text == ""
    decreases |chunks|
  {
    if chunks != [] {
      var b := buffer + chunks[0];
      MalformedFirstAppend(buffer, chunks[0], oracle);
      PushBack(b, oracle);
      MalformedLineBlocks(Scan(b, oracle).rest, chunks[1..], oracle);
    }
  }
}
