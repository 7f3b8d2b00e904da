/**
 * The event stream between the relay and the client. The server writes each
 * frame with `writeSSE`, whose encoding is not part of this model; it is
 * taken to be the one of Hono's `SSEStreamingApi.writeSSE`: an `event: `
 * line when the event name is non-empty, one `data: ` line per line of the
 * data, and a blank line. The lemmas here read such an encoding back with the
 * client's reader.
 */
module Wire {
  import opened JsString
  import opened EventStream
  import opened Relay

  /** `data: ` in front of each line of the data. */
  function DataLines(ls: seq<string>): (r: seq<string>)
    ensures |r| == |ls|
    ensures forall i :: 0 <= i < |ls| ==> r[i] == "data: " + ls[i]
  {
    if ls == [] then [] else DataLines(ls[..|ls| - 1]) + ["data: " + ls[|ls| - 1]]
  }

  function FrameLines(event: string, data: string): seq<string> {
    (if event != "" then ["event: " + event] else []) + DataLines(Lines(data))
  }

  /** `writeSSE({ event, data })`: the frame's lines and the blank line that ends it. */
  function EncodeFrame(event: string, data: string): string {
    Join(FrameLines(event, data), "\n") + "\n\n"
  }

  /** The data as the client's reader hands it on: the last line loses its
      trailing whitespace to the frame trim, and empty lines before the first
      non-empty one are dropped. */
  function Received(data: string): string {
    var ls := Lines(data);
    JoinedData(ls[..|ls| - 1] + [TrimEnd(ls[|ls| - 1])])
  }

  /** A payload the client's reader gives back unchanged. */
  predicate Preserved(data: string) {
    var ls := Lines(data);
    var last := ls[|ls| - 1];
    (data == "" || data[0] != '\n') && (last == "" || !IsWhitespace(last[|last| - 1]))
  }

  /** Lines that are non-empty and hold no line feed join into a well-cut frame. */
  lemma {:induction false} JoinNoBlank(ls: seq<string>)
    requires |ls| >= 1
    requires forall i :: 0 <= i < |ls| ==> ls[i] != "" && '\n' !in ls[i]
    ensures WellCut(Join(ls, "\n"))
  {
    var s := Join(ls, "\n");
    if |ls| == 1 {
      assert s == ls[0];
      forall i | 0 <= i && i + 2 <= |s| ensures !OccursAt(s, "\n\n", i) {
        assert s[i] in ls[0];
      }
    } else {
      var t := Join(ls[1..], "\n");
      JoinNoBlank(ls[1..]);
      JoinStartsWith(ls[1..], "\n");
      assert s == ls[0] + "\n" + t;
      assert t[0] == ls[1][0];
      assert ls[1][0] in ls[1];
      forall i | OccursAt(s, "\n\n", i) ensures false {
        assert s[i] == s[i..i + 2][0] && s[i + 1] == s[i..i + 2][1];
        if i > |ls[0]| {
          var j := i - |ls[0]| - 1;
          assert s[i..i + 2] == t[j..j + 2];
          assert OccursAt(t, "\n\n", j);
        }
      }
      assert s[|s| - 1] == t[|t| - 1];
    }
  }

  /** The `data:` lines of an encoded frame carry the data's lines, and its
      only `event:` line is the first. */
  lemma {:induction false} EncodedLines(event: string, xs: seq<string>)
    ensures DataBodies(["event: " + event] + DataLines(xs)) == xs
    ensures LastEventIndex(["event: " + event] + DataLines(xs)) == 0
  {
    var ls := ["event: " + event] + DataLines(xs);
    assert IsEventLine(ls[0]) by {
      assert ls[0][..6] == "event:";
    }
    if xs == [] {
      assert ls == ["event: " + event];
      assert ls[..0] == [];
      assert !IsDataLine(ls[0]);
    } else {
      var n := |xs| - 1;
      EncodedLines(event, xs[..n]);
      var line := "data: " + xs[n];
      assert DataLines(xs) == DataLines(xs[..n]) + [line];
      SeqAssoc(["event: " + event], DataLines(xs[..n]), [line]);
      assert ls == (["event: " + event] + DataLines(xs[..n])) + [line];
      assert ls[..|ls| - 1] == ["event: " + event] + DataLines(xs[..n]);
      assert line[0] == 'd';
      assert !IsEventLine(line);
      assert line[..5] == "data:";
      assert SliceFrom(line, 6) == xs[n];
    }
  }

  /** What the trim leaves of a frame's last data line. */
  function TrimmedDataLine(x: string): (line: string)
    ensures IsDataLine(line) && SliceFrom(line, 6) == TrimEnd(x)
    ensures '\n' !in x ==> '\n' !in line
  {
    if AllWhitespace(x) then "data:" else "data: " + TrimEnd(x)
  }

  /** Trimming a string that starts with non-whitespace and has a `:` before
      its last piece only trims that piece. */
  lemma {:induction false} TrimAfterColon(front: string, x: string)
    requires |front| >= 1 && !IsWhitespace(front[0]) && front[|front| - 1] == ':'
    ensures Trim(front + (" " + x)) ==
            if AllWhitespace(x) then front else front + " " + TrimEnd(x)
  {
    var body := front + (" " + x);
    assert body[0] == front[0];
    TrimNoLeading(body);
    assert !IsWhitespace(front[|front| - 1]) by {
      assert front[|front| - 1] as int == 0x3A;
    }
    TrimEndNoTrailing(front);
    TrimEndAppend(front, " " + x);
    SpaceAllWhitespace(x);
    if !AllWhitespace(x) {
      TrimEndAppend(" ", x);
      assert front + (" " + TrimEnd(x)) == front + " " + TrimEnd(x);
    }
  }

  /** The last line of a frame, split after the colon of its `data:` prefix. */
  lemma SplitAfterColon(j: string, x: string)
    ensures j + "\n" + ("data: " + x) == (j + "\n" + "data:") + (" " + x)
  {
    assert "data: " + x == "data:" + (" " + x);
  }

  /** The trimmed last line, put back behind the lines before it. */
  lemma RejoinTrimmed(j: string, y: string)
    ensures (j + "\n" + "data:") + " " + y == j + "\n" + ("data: " + y)
  {
    assert "data: " + y == "data:" + " " + y;
  }

  /** The frame trim touches only the last line, as `TrimmedDataLine` says. */
  lemma {:induction false} TrimEncodedBody(front: seq<string>, x: string)
    requires |front| >= 1 && front[0] != "" && !IsWhitespace(front[0][0])
    ensures Trim(Join(front + ["data: " + x], "\n")) == Join(front + [TrimmedDataLine(x)], "\n")
  {
    var j := Join(front, "\n");
    var head := j + "\n" + "data:";
    JoinSnoc(front, "data: " + x, "\n");
    JoinSnoc(front, TrimmedDataLine(x), "\n");
    JoinStartsWith(front, "\n");
    assert head[0] == front[0][0];
    SplitAfterColon(j, x);
    TrimAfterColon(head, x);
    if !AllWhitespace(x) {
      RejoinTrimmed(j, TrimEnd(x));
    }
  }

  /** The lines of the trimmed frame: the event line and the data's lines,
      with the last one trimmed at its end. */
  lemma {:induction false} TrimmedLinesRead(event: string, xs: seq<string>)
    requires |xs| >= 1 && forall i :: 0 <= i < |xs| ==> '\n' !in xs[i]
    ensures var lines := ["event: " + event] + DataLines(xs[..|xs| - 1]) + [TrimmedDataLine(xs[|xs| - 1])];
            DataBodies(lines) == xs[..|xs| - 1] + [TrimEnd(xs[|xs| - 1])] &&
            LastEventIndex(lines) == 0
  {
    var n := |xs| - 1;
    var front := ["event: " + event] + DataLines(xs[..n]);
    var last := TrimmedDataLine(xs[n]);
    var lines := front + [last];
    EncodedLines(event, xs[..n]);
    assert lines[..|lines| - 1] == front;
    assert last[0] == 'd';
    assert !IsEventLine(last);
  }


  /** The lines of an encoded frame, joined, are a frame the buffer loop cuts whole. */
  lemma EncodedBodyWellCut(event: string, data: string)
    requires event != "" && '\n' !in event
    ensures WellCut(Join(FrameLines(event, data), "\n"))
  {
    var xs := Lines(data);
    var ls := FrameLines(event, data);
    assert ls == ["event: " + event] + DataLines(xs);
    forall i | 0 <= i < |ls| ensures ls[i] != "" && '\n' !in ls[i] {
      if i > 0 {
        assert ls[i] == "data: " + xs[i - 1];
      }
    }
    JoinNoBlank(ls);
  }

  /** The client's buffer loop cuts an encoded frame whole: the callbacks are
      those of the frame's lines, and nothing is left in the buffer. */
  lemma EncodedFrameCut(event: string, data: string)
    requires event != "" && '\n' !in event
    ensures Callbacks(EncodeFrame(event, data)) == FrameCallbacks(Join(FrameLines(event, data), "\n"))
    ensures Leftover(EncodeFrame(event, data)) == ""
  {
    var body := Join(FrameLines(event, data), "\n");
    EncodedBodyWellCut(event, data);
    assert IndexOf("", "\n\n") == -1;
    DrainOfFrames([body], "");
    assert JoinFrames([body]) + "" == EncodeFrame(event, data);
    assert FramesCallbacks([body]) == FrameCallbacks(body) + FramesCallbacks([]);
  }

  /** The frame trim of a frame whose lines hold no line feed leaves the same
      lines with the last `data:` line trimmed as `TrimmedDataLine` says. */
  lemma {:induction false} TrimmedFrameLines(front: seq<string>, x: string)
    requires |front| >= 1 && front[0] != "" && !IsWhitespace(front[0][0])
    requires forall i :: 0 <= i < |front| ==> '\n' !in front[i]
    requires '\n' !in x
    ensures FrameCallbacks(Join(front + ["data: " + x], "\n")) ==
            Dispatch(ReadLines(Fresh, front + [TrimmedDataLine(x)]))
  {
    var raw := Join(front + ["data: " + x], "\n");
    var trimmed := front + [TrimmedDataLine(x)];
    var t := Join(trimmed, "\n");
    TrimEncodedBody(front, x);
    assert Trim(raw) == t;
    assert forall i :: 0 <= i < |trimmed| ==> '\n' !in trimmed[i] by {
      assert forall i :: 0 <= i < |front| ==> trimmed[i] == front[i];
    }
    LinesJoin(trimmed);
    JoinStartsWith(trimmed, "\n");
    assert t != "" by {
      assert trimmed[0] == front[0] && |front[0]| >= 1;
    }
    assert FrameCallbacks(raw) == Dispatch(ReadLines(Fresh, Lines(t)));
  }

  /** The lines of one encoded frame, read after the frame trim, dispatch the
      event with the data as `Received` says. */
  lemma {:induction false} EncodedFrameRead(event: string, data: string)
    requires event != "" && '\n' !in event
    ensures FrameCallbacks(Join(FrameLines(event, data), "\n")) ==
            Dispatch(Fields(event, Received(data)))
  {
    var xs := Lines(data);
    var n := |xs| - 1;
    var x := xs[n];
    var front := ["event: " + event] + DataLines(xs[..n]);
    assert xs[..n] + [x] == xs;
    assert DataLines(xs) == DataLines(xs[..n]) + ["data: " + x];
    assert FrameLines(event, data) == front + ["data: " + x];
    assert front[0][0] == 'e';
    forall i | 0 <= i < |front| ensures '\n' !in front[i] {
      if i > 0 {
        assert front[i] == "data: " + xs[i - 1];
      }
    }
    TrimmedFrameLines(front, x);
    var trimmed := front + [TrimmedDataLine(x)];
    TrimmedLinesRead(event, xs);
    LastEventWins(Fresh, trimmed);
    DataIsJoin(Fresh, trimmed);
    assert SliceFrom("event: " + event, 7) == event;
  }

  /** Reading back one encoded frame: the client calls the callback for the
      event with the data as `Received` says, and keeps nothing buffered. */
  lemma DecodeEncoded(event: string, data: string)
    requires event != "" && '\n' !in event
    ensures Callbacks(EncodeFrame(event, data)) == Dispatch(Fields(event, Received(data)))
    ensures Leftover(EncodeFrame(event, data)) == ""
  {
    EncodedFrameCut(event, data);
    EncodedFrameRead(event, data);
  }

  /** A preserved payload is received as it was sent. */
  lemma {:induction false} ReceivedPreserved(data: string)
    requires Preserved(data)
    ensures Received(data) == data
  {
    var ls := Lines(data);
    var last := ls[|ls| - 1];
    if last != "" {
      TrimEndNoTrailing(last);
    }
    assert ls[..|ls| - 1] + [TrimEnd(last)] == ls;
    JoinLines(data);
    if data == "" {
      assert ls == [""];
      assert FirstNonEmpty(ls) == 1;
    } else {
      assert ls[0][0] == data[0];
      assert FirstNonEmpty(ls) == 0;
      assert ls[0..] == ls;
    }
  }

  /** Round trip: a payload that does not start with a line feed and whose last
      line does not end in whitespace reaches the callback unchanged. */
  lemma RoundTrip(event: string, data: string)
    requires event != "" && '\n' !in event
    requires Preserved(data)
    ensures Callbacks(EncodeFrame(event, data)) == Dispatch(Fields(event, data))
  {
    DecodeEncoded(event, data);
    ReceivedPreserved(data);
  }

  /** A frame the client can read back: an event name that is non-empty and
      fits on one line. */
  predicate Encodable(f: Frame) {
    f.event != "" && '\n' !in f.event
  }

  /** The text the server writes for a sequence of frames. */
  function EncodeStream(frames: seq<Frame>): string {
    if frames == [] then "" else EncodeFrame(frames[0].event, frames[0].data) + EncodeStream(frames[1..])
  }

  /** The callbacks the client calls for a sequence of frames, each with its
      data as `Received` says. */
  function ReceivedCallbacks(frames: seq<Frame>): seq<Callback> {
    if frames == [] then []
    else Dispatch(Fields(frames[0].event, Received(frames[0].data))) + ReceivedCallbacks(frames[1..])
  }

  /** The frames' bodies, as the buffer loop cuts them. */
  function Bodies(frames: seq<Frame>): (r: seq<string>)
    ensures |r| == |frames|
    ensures forall i :: 0 <= i < |frames| ==> r[i] == Join(FrameLines(frames[i].event, frames[i].data), "\n")
  {
    if frames == [] then []
    else [Join(FrameLines(frames[0].event, frames[0].data), "\n")] + Bodies(frames[1..])
  }

  lemma {:induction false} EncodeStreamCut(frames: seq<Frame>)
    requires forall i :: 0 <= i < |frames| ==> Encodable(frames[i])
    ensures EncodeStream(frames) == JoinFrames(Bodies(frames))
    ensures FramesCallbacks(Bodies(frames)) == ReceivedCallbacks(frames)
  {
    if frames != [] {
      var f := frames[0];
      assert Encodable(frames[0]);
      EncodeStreamCut(frames[1..]);
      EncodedFrameRead(f.event, f.data);
      assert Bodies(frames)[1..] == Bodies(frames[1..]);
    }
  }

  /** The whole stream read back: every frame is cut whole, in order, each
      calls the callback for its event with the data as `Received` says, and
      nothing stays in the buffer. */
  lemma DecodeStream(frames: seq<Frame>)
    requires forall i :: 0 <= i < |frames| ==> Encodable(frames[i])
    ensures Callbacks(EncodeStream(frames)) == ReceivedCallbacks(frames)
    ensures Leftover(EncodeStream(frames)) == ""
  {
    EncodeStreamCut(frames);
    forall i | 0 <= i < |frames| ensures WellCut(Bodies(frames)[i]) {
      EncodedBodyWellCut(frames[i].event, frames[i].data);
    }
    assert IndexOf("", "\n\n") == -1;
    DrainOfFrames(Bodies(frames), "");
    assert JoinFrames(Bodies(frames)) + "" == EncodeStream(frames);
  }

  /** Every frame the relay writes carries one of its four event names. */
  lemma {:induction false} RelayFramesEncodable(sigs: seq<Signal>)
    ensures forall i :: 0 <= i < |AllFrames(sigs)| ==> Encodable(AllFrames(sigs)[i])
  {
    if sigs != [] {
      var n := |sigs| - 1;
      RelayFramesEncodable(sigs[..n]);
      var pre, fs := AllFrames(sigs[..n]), FrameOf(sigs[n]);
      FrameOfEncodable(sigs[n]);
      assert AllFrames(sigs) == pre + fs;
      forall i | 0 <= i < |pre + fs| ensures Encodable((pre + fs)[i]) {
        if i < |pre| {
          assert (pre + fs)[i] == pre[i];
        } else {
          assert (pre + fs)[i] == fs[i - |pre|];
        }
      }
    }
  }

  lemma FrameOfEncodable(sig: Signal)
    ensures forall i :: 0 <= i < |FrameOf(sig)| ==> Encodable(FrameOf(sig)[i])
  {
  }

  /** What the relay writes reaches the client's callbacks frame by frame. */
  lemma RelayReachesClient(threadId: int, sigs: seq<Signal>, oks: seq<bool>)
    requires |oks| == |sigs|
    ensures var frames := Run(threadId, sigs, oks).Frames();
            Callbacks(EncodeStream(frames)) == ReceivedCallbacks(frames) &&
            Leftover(EncodeStream(frames)) == ""
  {
    RunFrames(threadId, sigs, oks);
    RelayFramesEncodable(sigs);
    DecodeStream(AllFrames(sigs));
  }
}
