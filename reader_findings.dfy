/**
 * Two ways in which the client's frame reader does not hand on the payload
 * the server wrote, each shown on one concrete token, and a corrected reader
 * that gives every payload back unchanged.
 *
 * The frame trim strips trailing whitespace of the last `data:` line, so a
 * token that ends in a space loses it; and `data` is extended with a line
 * feed only once it is non-empty, so empty lines at the start of a payload
 * vanish, which turns a paragraph-break token into the empty string.
 */
module ReaderFindings {
  import opened JsString
  import opened EventStream
  import opened Relay
  import opened Wire

  // ---------------------------------------------------------------------
  // The reader as written.

  /** A one-line payload is received with its trailing whitespace trimmed. */
  lemma {:induction false} ReceivedOneLine(x: string)
    requires '\n' !in x
    ensures Received(x) == TrimEnd(x)
  {
    assert Join([x], "\n") == x;
    LinesJoin([x]);
    var y := TrimEnd(x);
    assert Lines(x)[..0] + [y] == [y];
    if y == "" {
      assert FirstNonEmpty([y]) == 1;
      assert [y][1..] == [];
    } else {
      assert FirstNonEmpty([y]) == 0;
      assert [y][0..] == [y];
    }
  }

  /** A word followed by a space is received as the word. */
  lemma {:induction false} ReceivedTrailingSpace(word: string)
    requires word != "" && '\n' !in word && !IsWhitespace(word[|word| - 1])
    ensures '\n' !in word + " " && Received(word + " ") == word
  {
    assert '\n' !in word + " " by {
      assert forall i :: 0 <= i < |word| ==> (word + " ")[i] == word[i];
    }
    ReceivedOneLine(word + " ");
    assert AllWhitespace(" ") by {
      assert IsWhitespace(" "[0]);
    }
    TrimEndAppend(word, " ");
    TrimEndNoTrailing(word);
  }

  /** A one-line token that ends in a space, such as `Hello `, arrives
      without that space. */
  lemma TrailingSpaceDropped(word: string)
    requires word != "" && '\n' !in word && !IsWhitespace(word[|word| - 1])
    ensures Callbacks(EncodeFrame("token", word + " ")) == [OnToken(word)]
  {
    ReceivedTrailingSpace(word);
    DecodeEncoded("token", word + " ");
  }

  /** A paragraph-break token arrives as the empty string. */
  lemma ParagraphBreakDropped()
    ensures Callbacks(EncodeFrame("token", "\n\n")) == [OnToken("")]
  {
    ReceivedBlankLines();
    DecodeEncoded("token", "\n\n");
  }

  /** Three empty lines: all of them come before the first non-empty one. */
  lemma ReceivedBlankLines()
    ensures Received("\n\n") == ""
  {
    var ls: seq<string> := ["", "", ""];
    assert Join(ls, "\n") == "\n\n";
    LinesJoin(ls);
    assert Lines("\n\n")[..2] + [TrimEnd("")] == ls;
    assert FirstNonEmpty(ls) == 3;
    assert ls[3..] == [];
  }

  // ---------------------------------------------------------------------
  // The corrected reader: no trim of the frame, and every `data:` line
  // becomes one line of the payload.

  /** The event name so far and the `data:` line bodies seen so far. */
  datatype Collected = Collected(event: string, bodies: seq<string>)

  function CollectLine(c: Collected, line: string): Collected {
    if IsEventLine(line) then c.(event := SliceFrom(line, 7))
    else if IsDataLine(line) then c.(bodies := c.bodies + [SliceFrom(line, 6)])
    else c
  }

  function CollectLines(lines: seq<string>): Collected {
    if lines == [] then Collected("message", [])
    else CollectLine(CollectLines(lines[..|lines| - 1]), lines[|lines| - 1])
  }

  /** One frame, as cut from the buffer. */
  function IntendedFrameCallbacks(raw: string): seq<Callback> {
    if raw == "" then []
    else
      var c := CollectLines(Lines(raw));
      Dispatch(Fields(c.event, Join(c.bodies, "\n")))
  }

  function IntendedFramesCallbacks(frames: seq<string>): seq<Callback> {
    if frames == [] then []
    else IntendedFrameCallbacks(frames[0]) + IntendedFramesCallbacks(frames[1..])
  }

  /** The callbacks the corrected reader calls for a stream whose text is `s`. */
  function IntendedCallbacks(s: string): seq<Callback> {
    IntendedFramesCallbacks(Drain(s).0)
  }

  /** The corrected reader collects exactly the lines an encoded frame carries. */
  lemma {:induction false} CollectEncoded(event: string, xs: seq<string>)
    ensures CollectLines(["event: " + event] + DataLines(xs)) == Collected(event, xs)
  {
    var ls := ["event: " + event] + DataLines(xs);
    assert IsEventLine(ls[0]) by {
      assert ls[0][..6] == "event:";
    }
    if xs == [] {
      assert ls == ["event: " + event];
      assert ls[..0] == [];
      assert SliceFrom(ls[0], 7) == event;
    } else {
      var n := |xs| - 1;
      CollectEncoded(event, xs[..n]);
      var line := "data: " + xs[n];
      assert ls == (["event: " + event] + DataLines(xs[..n])) + [line];
      assert ls[..|ls| - 1] == ["event: " + event] + DataLines(xs[..n]);
      assert line[0] == 'd';
      assert !IsEventLine(line);
      assert line[..5] == "data:";
      assert SliceFrom(line, 6) == xs[n];
      assert xs[..n] + [xs[n]] == xs;
    }
  }

  /** The corrected reader reads one encoded frame body back exactly. */
  lemma IntendedFrameRead(event: string, data: string)
    requires event != "" && '\n' !in event
    ensures IntendedFrameCallbacks(Join(FrameLines(event, data), "\n")) == Dispatch(Fields(event, data))
  {
    var xs := Lines(data);
    var ls := FrameLines(event, data);
    assert ls == ["event: " + event] + DataLines(xs);
    forall i | 0 <= i < |ls| ensures '\n' !in ls[i] {
      if i > 0 {
        assert ls[i] == "data: " + xs[i - 1];
      }
    }
    LinesJoin(ls);
    JoinStartsWith(ls, "\n");
    assert ls[0][0] == 'e';
    CollectEncoded(event, xs);
    JoinLines(data);
  }

  /** Round trip for every payload: the corrected reader calls the callback
      for the event with the data exactly as the server wrote it. */
  lemma IntendedRoundTrip(event: string, data: string)
    requires event != "" && '\n' !in event
    ensures IntendedCallbacks(EncodeFrame(event, data)) == Dispatch(Fields(event, data))
  {
    var body := Join(FrameLines(event, data), "\n");
    EncodedBodyWellCut(event, data);
    assert IndexOf("", "\n\n") == -1;
    DrainOfFrames([body], "");
    assert JoinFrames([body]) + "" == EncodeFrame(event, data);
    IntendedFrameRead(event, data);
    assert IntendedFramesCallbacks([body]) == IntendedFrameCallbacks(body) + IntendedFramesCallbacks([]);
  }

  /** The callbacks a sequence of frames asks for, each with its data as sent. */
  function SentCallbacks(frames: seq<Frame>): seq<Callback> {
    if frames == [] then []
    else Dispatch(Fields(frames[0].event, frames[0].data)) + SentCallbacks(frames[1..])
  }

  lemma {:induction false} IntendedFramesRead(frames: seq<Frame>)
    requires forall i :: 0 <= i < |frames| ==> Encodable(frames[i])
    ensures IntendedFramesCallbacks(Bodies(frames)) == SentCallbacks(frames)
  {
    if frames != [] {
      assert Encodable(frames[0]);
      IntendedFramesRead(frames[1..]);
      IntendedFrameRead(frames[0].event, frames[0].data);
      assert Bodies(frames)[1..] == Bodies(frames[1..]);
    }
  }

  /** With the corrected reader, the client's callbacks are exactly the frames
      the relay writes, payloads included. */
  lemma IntendedRelayReachesClient(threadId: int, sigs: seq<Signal>, oks: seq<bool>)
    requires |oks| == |sigs|
    ensures var frames := Run(threadId, sigs, oks).Frames();
            IntendedCallbacks(EncodeStream(frames)) == SentCallbacks(frames)
  {
    var frames := AllFrames(sigs);
    RunFrames(threadId, sigs, oks);
    RelayFramesEncodable(sigs);
    EncodeStreamCut(frames);
    forall i | 0 <= i < |frames| ensures WellCut(Bodies(frames)[i]) {
      EncodedBodyWellCut(frames[i].event, frames[i].data);
    }
    assert IndexOf("", "\n\n") == -1;
    DrainOfFrames(Bodies(frames), "");
    assert JoinFrames(Bodies(frames)) + "" == EncodeStream(frames);
    IntendedFramesRead(frames);
  }
}
