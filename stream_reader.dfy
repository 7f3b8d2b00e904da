/**
 * The client's reader of the chat event stream (`streamChat`). Decoded text
 * arrives in chunks; the reader appends each chunk to a buffer, cuts a frame
 * off the front of the buffer at every blank line (`\n\n`), trims the frame,
 * reads its `event:` and `data:` lines and calls one of four callbacks.
 *
 * This is a subset of the event-stream format of the WHATWG HTML Living
 * Standard, section 9.2 ("Server-sent events"): prefixes are removed by fixed
 * width, carriage returns are not line ends, `id:` and `retry:` lines are
 * ignored, an empty leading `data:` line contributes nothing and the trim
 * drops whitespace at the end of the last line.
 */
module EventStream {
  import opened JsString

  /** The callbacks of `ChatEvents`, in the order the reader calls them. */
  datatype Callback =
    | OnToken(text: string)
    | OnCompleted
    | OnDone
    | OnError(message: string)

  /** The `ev` and `data` variables of the frame loop. */
  datatype Fields = Fields(event: string, data: string)

  const Fresh: Fields := Fields("message", "")

  predicate IsEventLine(line: string) {
    StartsWith(line, "event:")
  }

  predicate IsDataLine(line: string) {
    !IsEventLine(line) && StartsWith(line, "data:")
  }

  /** One line of a frame: `event:` replaces the name from index 7 on,
      `data:` appends from index 6 on, behind a line feed only when data is
      already non-empty; any other line is ignored. */
  function ReadLine(f: Fields, line: string): Fields {
    if IsEventLine(line) then f.(event := SliceFrom(line, 7))
    else if IsDataLine(line) then
      f.(data := f.data + (if f.data != "" then "\n" else "") + SliceFrom(line, 6))
    else f
  }

  /** The lines of a frame read from first to last. */
  function ReadLines(f: Fields, lines: seq<string>): Fields {
    if lines == [] then f
    else ReadLine(ReadLines(f, lines[..|lines| - 1]), lines[|lines| - 1])
  }

  /** The position of the last `event:` line, or -1 when there is none. */
  function LastEventIndex(lines: seq<string>): (k: int)
    ensures -1 <= k < |lines|
    ensures k != -1 ==> IsEventLine(lines[k])
    ensures forall j :: k < j < |lines| ==> !IsEventLine(lines[j])
  {
    if lines == [] then -1
    else if IsEventLine(lines[|lines| - 1]) then |lines| - 1
    else LastEventIndex(lines[..|lines| - 1])
  }

  /** The texts of the `data:` lines from index 6 on, in order. */
  function DataBodies(lines: seq<string>): (bs: seq<string>)
    ensures |bs| <= |lines|
  {
    if lines == [] then []
    else
      var n := |lines| - 1;
      DataBodies(lines[..n]) + (if IsDataLine(lines[n]) then [SliceFrom(lines[n], 6)] else [])
  }

  /** The position of the first non-empty text, or the length when all are empty. */
  function FirstNonEmpty(bs: seq<string>): (j: nat)
    ensures j <= |bs|
    ensures forall i :: 0 <= i < j ==> bs[i] == ""
    ensures j < |bs| ==> bs[j] != ""
  {
    if bs == [] then 0
    else if bs[0] != "" then 0
    else 1 + FirstNonEmpty(bs[1..])
  }

  /** The data texts joined by line feeds once the leading empty ones are gone. */
  function JoinedData(bs: seq<string>): string {
    Join(bs[FirstNonEmpty(bs)..], "\n")
  }

  /** The last `event:` line decides the event name; without one it stays
      what it was (`message` for a fresh frame). */
  lemma {:induction false} LastEventWins(f: Fields, lines: seq<string>)
    ensures ReadLines(f, lines).event ==
            var k := LastEventIndex(lines);
            if k == -1 then f.event else SliceFrom(lines[k], 7)
  {
    if lines != [] {
      var n := |lines| - 1;
      LastEventWins(f, lines[..n]);
    }
  }

  lemma {:induction false} FirstNonEmptySnoc(bs: seq<string>, b: string)
    ensures FirstNonEmpty(bs + [b]) ==
            if FirstNonEmpty(bs) < |bs| || b != "" then FirstNonEmpty(bs) else |bs| + 1
  {
    if bs != [] && bs[0] == "" {
      assert (bs + [b])[1..] == bs[1..] + [b];
      FirstNonEmptySnoc(bs[1..], b);
    } else if bs == [] {
      assert bs + [b] == [b];
      assert [b][1..] == [];
    }
  }

  /** The data of a frame read from empty data: the `data:` texts joined by
      line feeds, except that empty texts before the first non-empty one leave
      no trace. */
  lemma {:induction false} DataIsJoin(f: Fields, lines: seq<string>)
    requires f.data == ""
    ensures ReadLines(f, lines).data == JoinedData(DataBodies(lines))
  {
    if lines != [] {
      var n := |lines| - 1;
      var bs := DataBodies(lines[..n]);
      DataIsJoin(f, lines[..n]);
      var line := lines[n];
      var before := ReadLines(f, lines[..n]);
      assert ReadLines(f, lines) == ReadLine(before, line);
      if IsDataLine(line) {
        var b := SliceFrom(line, 6);
        assert DataBodies(lines) == bs + [b];
        var j := FirstNonEmpty(bs);
        FirstNonEmptySnoc(bs, b);
        if j < |bs| {
          assert (bs + [b])[j..] == bs[j..] + [b];
          JoinSnoc(bs[j..], b, "\n");
          JoinStartsWith(bs[j..], "\n");
          assert before.data != "";
          assert ReadLine(before, line).data == Join(bs[j..], "\n") + "\n" + b;
          assert JoinedData(bs + [b]) == Join(bs[j..] + [b], "\n");
        } else if b != "" {
          assert (bs + [b])[j..] == [b];
          assert before.data == "";
          assert ReadLine(before, line).data == b;
          assert JoinedData(bs + [b]) == Join([b], "\n");
        } else {
          assert (bs + [b])[|bs| + 1..] == [];
          assert before.data == "";
          assert ReadLine(before, line).data == "";
          assert JoinedData(bs + [b]) == Join([], "\n");
        }
      } else {
        assert bs + [] == bs;
        assert DataBodies(lines) == bs;
        assert ReadLine(before, line).data == before.data;
      }
    }
  }

  /** The callback, if any, for a decoded frame. */
  function Dispatch(f: Fields): (r: seq<Callback>)
    ensures |r| <= 1
    ensures r == [OnToken(f.data)] <==> f.event == "token"
    ensures r == [OnCompleted] <==> f.event == "message_completed"
    ensures r == [OnDone] <==> f.event == "done"
    ensures r == [OnError(f.data)] <==> f.event == "error"
    ensures r == [] <==> f.event !in {"token", "message_completed", "done", "error"}
  {
    if f.event == "token" then [OnToken(f.data)]
    else if f.event == "message_completed" then [OnCompleted]
    else if f.event == "done" then [OnDone]
    else if f.event == "error" then [OnError(f.data)]
    else []
  }

  /** What one frame cut from the buffer causes: nothing when it is blank,
      otherwise the callback for its lines. */
  function FrameCallbacks(raw: string): (r: seq<Callback>)
    ensures AllWhitespace(raw) ==> r == []
  {
    var frame := Trim(raw);
    if frame == "" then [] else Dispatch(ReadLines(Fresh, Lines(frame)))
  }

  function FramesCallbacks(frames: seq<string>): seq<Callback> {
    if frames == [] then [] else FrameCallbacks(frames[0]) + FramesCallbacks(frames[1..])
  }

  /** A frame followed by its separator, for every frame of a list. */
  function JoinFrames(frames: seq<string>): string {
    if frames == [] then "" else frames[0] + "\n\n" + JoinFrames(frames[1..])
  }

  predicate NoSeparator(s: string) {
    IndexOf(s, "\n\n") == -1
  }

  /** A frame as the buffer loop can cut it: no separator inside and no line
      feed at the end (that line feed would start an earlier separator). */
  predicate WellCut(frame: string) {
    NoSeparator(frame) && (frame == "" || frame[|frame| - 1] != '\n')
  }

  /** The inner `while` loop run to exhaustion on a buffer: the frames it cuts,
      in order, and what stays in the buffer. */
  function Drain(buf: string): (r: (seq<string>, string))
    decreases |buf|
  {
    var sep := IndexOf(buf, "\n\n");
    if sep == -1 then ([], buf)
    else
      var rest := Drain(buf[sep + 2..]);
      ([buf[..sep]] + rest.0, rest.1)
  }

  /** The frame cut at the first separator is well cut. */
  lemma FirstFrameWellCut(buf: string)
    requires IndexOf(buf, "\n\n") != -1
    ensures WellCut(buf[..IndexOf(buf, "\n\n")])
  {
    var sep := IndexOf(buf, "\n\n");
    var frame := buf[..sep];
    forall i | OccursAt(frame, "\n\n", i) ensures false {
      assert buf[i..i + 2] == frame[i..i + 2];
      assert OccursAt(buf, "\n\n", i);
    }
    if frame != [] && frame[|frame| - 1] == '\n' {
      assert buf[sep] == buf[sep..sep + 2][0] == '\n';
      assert buf[sep - 1] == frame[|frame| - 1];
      assert buf[sep - 1..sep + 1] == [buf[sep - 1], buf[sep]];
      assert OccursAt(buf, "\n\n", sep - 1);
    }
  }

  /** The buffer is exactly its frames, each followed by a separator, and the
      leftover. */
  lemma {:induction false} DrainJoin(buf: string)
    ensures buf == JoinFrames(Drain(buf).0) + Drain(buf).1
    decreases |buf|
  {
    var sep := IndexOf(buf, "\n\n");
    if sep != -1 {
      var rest := buf[sep + 2..];
      DrainJoin(rest);
      assert Drain(buf).0 == [buf[..sep]] + Drain(rest).0;
      assert Drain(buf).0[1..] == Drain(rest).0;
      assert buf == buf[..sep] + "\n\n" + rest;
    }
  }

  /** The leftover holds no separator. */
  lemma {:induction false} DrainLeftover(buf: string)
    ensures NoSeparator(Drain(buf).1)
    decreases |buf|
  {
    var sep := IndexOf(buf, "\n\n");
    if sep != -1 {
      DrainLeftover(buf[sep + 2..]);
    }
  }

  /** Every frame the loop cuts is well cut. */
  lemma {:induction false} DrainWellCut(buf: string, i: int)
    requires 0 <= i < |Drain(buf).0|
    ensures WellCut(Drain(buf).0[i])
    decreases |buf|
  {
    var sep := IndexOf(buf, "\n\n");
    var rest := buf[sep + 2..];
    assert Drain(buf).0 == [buf[..sep]] + Drain(rest).0;
    if i == 0 {
      FirstFrameWellCut(buf);
    } else {
      DrainWellCut(rest, i - 1);
    }
  }

  /** A well-cut frame followed by a separator is cut exactly there. */
  lemma CutAfterWellCut(frame: string, rest: string)
    requires WellCut(frame)
    ensures IndexOf(frame + "\n\n" + rest, "\n\n") == |frame|
  {
    var s := frame + "\n\n" + rest;
    assert s[|frame|..|frame| + 2] == "\n\n";
    assert OccursAt(s, "\n\n", |frame|);
    forall i | 0 <= i < |frame| ensures !OccursAt(s, "\n\n", i) {
      if i + 2 <= |frame| {
        assert s[i..i + 2] == frame[i..i + 2];
        assert !OccursAt(frame, "\n\n", i);
      } else {
        assert i == |frame| - 1 && s[i] == frame[i] && s[i] != '\n';
        assert s[i..i + 2][0] == s[i];
      }
    }
  }

  /** `Drain` is the only way to read a buffer as well-cut frames, each
      followed by a separator, and a leftover without a separator. */
  lemma {:induction false} DrainOfFrames(frames: seq<string>, rest: string)
    requires forall i :: 0 <= i < |frames| ==> WellCut(frames[i])
    requires NoSeparator(rest)
    ensures Drain(JoinFrames(frames) + rest) == (frames, rest)
  {
    if frames == [] {
      assert JoinFrames(frames) + rest == rest;
    } else {
      var f := frames[0];
      var tail := JoinFrames(frames[1..]) + rest;
      DrainOfFrames(frames[1..], rest);
      assert JoinFrames(frames) + rest == f + "\n\n" + tail;
      CutAfterWellCut(f, tail);
      var s := f + "\n\n" + tail;
      assert s[..|f|] == f;
      assert s[|f| + 2..] == tail;
      assert Drain(s) == ([f] + Drain(tail).0, Drain(tail).1);
      assert frames == [f] + frames[1..];
    }
  }

  /** The callbacks caused by a stream whose decoded text is `s`. */
  function Callbacks(s: string): seq<Callback> {
    FramesCallbacks(Drain(s).0)
  }

  /** What is left in the buffer once a stream whose text is `s` ends. */
  function Leftover(s: string): string {
    Drain(s).1
  }

  function Concat(chunks: seq<string>): string {
    if chunks == [] then "" else Concat(chunks[..|chunks| - 1]) + chunks[|chunks| - 1]
  }

  lemma {:induction false} FramesCallbacksAppend(a: seq<string>, b: seq<string>)
    ensures FramesCallbacks(a + b) == FramesCallbacks(a) + FramesCallbacks(b)
  {
    if a != [] {
      FramesCallbacksAppend(a[1..], b);
      FramesCallbacksCons(a, b);
      SeqAssoc(FrameCallbacks(a[0]), FramesCallbacks(a[1..]), FramesCallbacks(b));
    } else {
      assert a + b == b;
    }
  }

  lemma FramesCallbacksCons(a: seq<string>, b: seq<string>)
    requires a != []
    ensures FramesCallbacks(a + b) == FrameCallbacks(a[0]) + FramesCallbacks(a[1..] + b)
  {
    assert (a + b)[0] == a[0];
    assert (a + b)[1..] == a[1..] + b;
  }

  /** Appending a chunk only adds to what the buffer already holds: the frames
      cut before are kept, and cutting continues from the old leftover. */
  lemma {:induction false} DrainAppend(s: string, c: string)
    ensures Drain(s + c).0 == Drain(s).0 + Drain(Drain(s).1 + c).0
    ensures Drain(s + c).1 == Drain(Drain(s).1 + c).1
    decreases |s|
  {
    var k := IndexOf(s, "\n\n");
    if k != -1 {
      IndexOfAppend(s, c, "\n\n");
      assert (s + c)[..k] == s[..k];
      assert (s + c)[k + 2..] == s[k + 2..] + c;
      DrainAppend(s[k + 2..], c);
    }
  }

  /** The frame loop of `streamChat`, one line at a time. */
  method DecodeFrame(frame: string) returns (ev: string, data: string)
    ensures Fields(ev, data) == ReadLines(Fresh, Lines(frame))
  {
    ev := "message";
    data := "";
    var lines := Lines(frame);
    for i := 0 to |lines|
      invariant Fields(ev, data) == ReadLines(Fresh, lines[..i])
    {
      assert lines[..i + 1][..i] == lines[..i];
      var line := lines[i];
      if StartsWith(line, "event:") {
        ev := SliceFrom(line, 7);
      } else if StartsWith(line, "data:") {
        data := data + (if data != "" then "\n" else "") + SliceFrom(line, 6);
      }
    }
    assert lines[..|lines|] == lines;
  }

  /** The body of the inner loop for one frame cut from the buffer: trim it,
      skip it when blank, otherwise decode it and call the matching callback. */
  method HandleFrame(raw: string) returns (calls: seq<Callback>)
    ensures calls == FrameCallbacks(raw)
  {
    calls := [];
    var frame := Trim(raw);
    if frame == "" {
      return;
    }
    var ev, data := DecodeFrame(frame);
    if ev == "token" {
      calls := [OnToken(data)];
    } else if ev == "message_completed" {
      calls := [OnCompleted];
    } else if ev == "done" {
      calls := [OnDone];
    } else if ev == "error" {
      calls := [OnError(data)];
    }
  }

  /** The inner `while` loop: cut frames off the front of the buffer while it
      holds a separator. */
  method DrainBuffer(start: string) returns (calls: seq<Callback>, buf: string)
    ensures calls == FramesCallbacks(Drain(start).0)
    ensures buf == Drain(start).1
  {
    calls := [];
    buf := start;
    var sep := IndexOf(buf, "\n\n");
    while sep != -1
      invariant sep == IndexOf(buf, "\n\n")
      invariant calls + FramesCallbacks(Drain(buf).0) == FramesCallbacks(Drain(start).0)
      invariant Drain(buf).1 == Drain(start).1
      decreases |buf|
    {
      var frameCalls := HandleFrame(buf[..sep]);
      assert Drain(buf).0 == [buf[..sep]] + Drain(buf[sep + 2..]).0;
      calls := calls + frameCalls;
      buf := SliceFrom(buf, sep + 2);
      sep := IndexOf(buf, "\n\n");
    }
  }

  /** `streamChat` from the first `reader.read()` on, with the stream's decoded
      text given as its chunks: the callbacks it makes, in order, and what it
      leaves in `buf` when the stream ends. */
  method StreamChat(chunks: seq<string>) returns (calls: seq<Callback>, buf: string)
    ensures calls == Callbacks(Concat(chunks))
    ensures buf == Leftover(Concat(chunks))
  {
    calls := [];
    buf := "";
    var i := 0;
    while i < |chunks|
      invariant 0 <= i <= |chunks|
      invariant calls == Callbacks(Concat(chunks[..i]))
      invariant buf == Leftover(Concat(chunks[..i]))
    {
      ghost var before := Concat(chunks[..i]);
      assert chunks[..i + 1][..i] == chunks[..i];
      assert Concat(chunks[..i + 1]) == before + chunks[i];
      DrainAppend(before, chunks[i]);
      FramesCallbacksAppend(Drain(before).0, Drain(buf + chunks[i]).0);
      var more;
      more, buf := DrainBuffer(buf + chunks[i]);
      calls := calls + more;
      i := i + 1;
    }
    assert chunks[..|chunks|] == chunks;
  }
}
