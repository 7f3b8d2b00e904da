/**
 * The chat relay of `POST /api/chat/:assistantId`: the closure that
 * `streamSSE` runs once per request. It forwards the upstream run's text
 * deltas as `token` frames, accumulates them in `assistantText`, and saves
 * the assistant message through `saveMessage`, which every completion or
 * terminal signal calls and which inserts at most once.
 *
 * A run is modelled as the sequence of signals the closure receives, in
 * arrival order; each signal carries the outcome of the INSERT that
 * `saveMessage` would issue while handling it.
 */
module Relay {
  import opened JsString
  import opened MessageStore

  /** What the relay can be told: the five upstream events it subscribes to,
      and `Thrown` for the `catch` around opening and awaiting the run. */
  datatype Signal =
    | TextCreated(id: Option<string>)
    | TextDelta(value: Option<string>)
    | MessageCompleted(id: Option<string>)
    | End
    | StreamError(message: Option<string>)
    | Thrown(message: Option<string>)

  /** One `stream.writeSSE({ event, data })`. */
  datatype Frame = Frame(event: string, data: string)

  /** The signals whose handlers call `saveMessage`. */
  predicate CallsSave(sig: Signal) {
    sig.MessageCompleted? || sig.End? || sig.StreamError? || sig.Thrown?
  }

  /** The frame each handler writes. It depends on the signal alone: one
      frame for every signal but `TextCreated`. */
  function FrameOf(sig: Signal): (fs: seq<Frame>)
    ensures |fs| == if sig.TextCreated? then 0 else 1
    ensures CallsSave(sig) ==> fs[0].event != "token"
  {
    match sig
    case TextCreated(_) => []
    case TextDelta(v) => [Frame("token", OrElse(v, ""))]
    case MessageCompleted(_) => [Frame("message_completed", "done")]
    case End => [Frame("done", "[DONE]")]
    case StreamError(m) => [Frame("error", OrElse(m, "stream error"))]
    case Thrown(m) => [Frame("error", OrElse(m, "Failed to stream"))]
  }

  /** What the closure does beyond its own variables: an assistant row
      inserted, or a frame written to the stream. */
  datatype Effect = Inserted(row: MessageRow) | Wrote(frame: Frame)

  /** One `Wrote` per frame, in order. */
  function Writes(fs: seq<Frame>): (es: seq<Effect>)
    ensures |es| == |fs|
    ensures forall i :: 0 <= i < |fs| ==> es[i] == Wrote(fs[i])
  {
    if fs == [] then [] else Writes(fs[..|fs| - 1]) + [Wrote(fs[|fs| - 1])]
  }

  /** The frames among a sequence of effects, in order. */
  function WrittenFrames(es: seq<Effect>): seq<Frame> {
    if es == [] then []
    else
      var e := es[|es| - 1];
      WrittenFrames(es[..|es| - 1]) + (if e.Wrote? then [e.frame] else [])
  }

  /** The rows among a sequence of effects, in order. */
  function InsertedRows(es: seq<Effect>): seq<MessageRow> {
    if es == [] then []
    else
      var e := es[|es| - 1];
      InsertedRows(es[..|es| - 1]) + (if e.Inserted? then [e.row] else [])
  }

  /** The closure's variables together with what it has done so far: the
      inserts and the frame writes, in the one order in which they happen. */
  datatype State = State(
    text: string,
    saved: bool,
    messageId: Option<string>,
    effects: seq<Effect>)
  {
    /** The frames written to the stream. */
    function Frames(): seq<Frame> {
      WrittenFrames(effects)
    }

    /** The assistant rows inserted. */
    function Rows(): seq<MessageRow> {
      InsertedRows(effects)
    }
  }

  const Initial: State := State("", false, None, [])

  /** Both projections distribute over concatenation. */
  lemma {:induction false} ProjectAppend(a: seq<Effect>, b: seq<Effect>)
    ensures WrittenFrames(a + b) == WrittenFrames(a) + WrittenFrames(b)
    ensures InsertedRows(a + b) == InsertedRows(a) + InsertedRows(b)
    decreases |b|
  {
    if b == [] {
      assert a + b == a;
    } else {
      var n := |b| - 1;
      var e := b[n];
      ProjectAppend(a, b[..n]);
      assert (a + b)[..|a + b| - 1] == a + b[..n];
      assert (a + b)[|a + b| - 1] == e;
      SeqAssoc(WrittenFrames(a), WrittenFrames(b[..n]), if e.Wrote? then [e.frame] else []);
      SeqAssoc(InsertedRows(a), InsertedRows(b[..n]), if e.Inserted? then [e.row] else []);
    }
  }

  /** Writing frames adds exactly those frames and no row. */
  lemma {:induction false} ProjectWrites(fs: seq<Frame>)
    ensures WrittenFrames(Writes(fs)) == fs && InsertedRows(Writes(fs)) == []
  {
    if fs != [] {
      var n := |fs| - 1;
      ProjectWrites(fs[..n]);
      assert Writes(fs)[..n] == Writes(fs[..n]);
      assert fs[..n] + [fs[n]] == fs;
    }
  }

  function AssistantRow(threadId: int, text: string, messageId: Option<string>): MessageRow {
    MessageRow(threadId, Assistant, text, messageId, None)
  }

  /** `saveMessage`: insert only when the trimmed buffer is non-empty and no
      insert has succeeded yet; raise the flag only once the insert succeeds. */
  function Save(s: State, threadId: int, insertOk: bool): State {
    if |Trim(s.text)| > 0 && !s.saved && insertOk then
      s.(saved := true, effects := s.effects + [Inserted(AssistantRow(threadId, s.text, s.messageId))])
    else
      s
  }

  /** One handler run to completion. `insertOk` is consulted only by the
      handlers that call `saveMessage`; each of them awaits the save before it
      writes its frame, so an insert comes before that frame. */
  function Step(s: State, threadId: int, sig: Signal, insertOk: bool): State {
    match sig
    case TextCreated(id) =>
      if Truthy(id) then s.(messageId := id) else s
    case TextDelta(v) =>
      s.(text := s.text + OrElse(v, ""), effects := s.effects + Writes(FrameOf(sig)))
    case MessageCompleted(id) =>
      var s1 := if Truthy(id) then s.(messageId := id) else s;
      var s2 := Save(s1, threadId, insertOk);
      s2.(effects := s2.effects + Writes(FrameOf(sig)))
    case _ =>
      var s2 := Save(s, threadId, insertOk);
      s2.(effects := s2.effects + Writes(FrameOf(sig)))
  }

  /** A whole run: the signals in arrival order, each with its insert outcome. */
  function Run(threadId: int, sigs: seq<Signal>, oks: seq<bool>): State
    requires |oks| == |sigs|
  {
    if |sigs| == 0 then Initial
    else
      var n := |sigs| - 1;
      Step(Run(threadId, sigs[..n], oks[..n]), threadId, sigs[n], oks[n])
  }

  // ---------------------------------------------------------------------
  // Reference definitions, stated over the signals alone.

  /** The concatenation of the delta values, `delta.value || ''` each. */
  function DeltaText(sigs: seq<Signal>): string {
    if |sigs| == 0 then ""
    else
      var n := |sigs| - 1;
      DeltaText(sigs[..n]) + (if sigs[n].TextDelta? then OrElse(sigs[n].value, "") else "")
  }

  /** `DeltaText` grows one signal at a time. */
  lemma DeltaTextPrefix(sigs: seq<Signal>, k: int)
    requires 0 < k <= |sigs|
    ensures DeltaText(sigs[..k]) ==
            DeltaText(sigs[..k - 1]) + (if sigs[k - 1].TextDelta? then OrElse(sigs[k - 1].value, "") else "")
  {
    assert sigs[..k][..k - 1] == sigs[..k - 1];
  }

  /** The concatenation of the `token` frames' payloads. */
  function TokenText(frames: seq<Frame>): string {
    if |frames| == 0 then ""
    else
      var n := |frames| - 1;
      TokenText(frames[..n]) + (if frames[n].event == "token" then frames[n].data else "")
  }

  /** Every frame the signals ask for, in order. */
  function AllFrames(sigs: seq<Signal>): seq<Frame> {
    if |sigs| == 0 then []
    else AllFrames(sigs[..|sigs| - 1]) + FrameOf(sigs[|sigs| - 1])
  }

  lemma AllFramesPrefix(sigs: seq<Signal>, k: int)
    requires 0 < k <= |sigs|
    ensures AllFrames(sigs[..k]) == AllFrames(sigs[..k - 1]) + FrameOf(sigs[k - 1])
  {
    assert sigs[..k][..k - 1] == sigs[..k - 1];
  }

  /** The latest truthy id seen from `textCreated` or `messageCompleted`. */
  function LastId(sigs: seq<Signal>): Option<string> {
    if |sigs| == 0 then None
    else
      var n := |sigs| - 1;
      match sigs[n]
      case TextCreated(id) => if Truthy(id) then id else LastId(sigs[..n])
      case MessageCompleted(id) => if Truthy(id) then id else LastId(sigs[..n])
      case _ => LastId(sigs[..n])
  }

  lemma LastIdPrefix(sigs: seq<Signal>, k: int)
    requires 0 < k <= |sigs|
    ensures LastId(sigs[..k]) ==
            if (sigs[k - 1].TextCreated? || sigs[k - 1].MessageCompleted?) && Truthy(sigs[k - 1].id)
            then sigs[k - 1].id else LastId(sigs[..k - 1])
  {
    assert sigs[..k][..k - 1] == sigs[..k - 1];
  }

  /** Signal `i` calls `saveMessage` with a buffer that is not all
      whitespace (by `Trim`'s contract, exactly when `trim()` leaves something)
      and its insert succeeds: it saves unless an earlier signal already has. */
  predicate SavesAt(sigs: seq<Signal>, oks: seq<bool>, i: int)
    requires |oks| == |sigs|
  {
    0 <= i < |sigs| && CallsSave(sigs[i]) && oks[i] && !AllWhitespace(DeltaText(sigs[..i]))
  }

  /** The first saving signal at or after `from`, or -1. */
  function FirstSaveFrom(sigs: seq<Signal>, oks: seq<bool>, from: nat): (k: int)
    requires |oks| == |sigs|
    ensures k == -1 || (from <= k && SavesAt(sigs, oks, k))
    ensures k == -1 ==> forall i :: from <= i ==> !SavesAt(sigs, oks, i)
    ensures k != -1 ==> forall i :: from <= i < k ==> !SavesAt(sigs, oks, i)
    decreases |sigs| - from
  {
    if from >= |sigs| then -1
    else if SavesAt(sigs, oks, from) then from
    else FirstSaveFrom(sigs, oks, from + 1)
  }

  /** The row a run should insert: the buffer and id as they stood at the
      first saving signal, or nothing when no signal saves. */
  function SavedRows(threadId: int, sigs: seq<Signal>, oks: seq<bool>): seq<MessageRow>
    requires |oks| == |sigs|
  {
    var k := FirstSaveFrom(sigs, oks, 0);
    if k == -1 then [] else [AssistantRow(threadId, DeltaText(sigs[..k]), LastId(sigs[..k + 1]))]
  }

  /** The first save is the one saving signal with none before it. */
  lemma {:induction false} FirstSaveUnique(sigs: seq<Signal>, oks: seq<bool>, k: int)
    requires |oks| == |sigs|
    requires SavesAt(sigs, oks, k)
    requires forall i :: 0 <= i < k ==> !SavesAt(sigs, oks, i)
    ensures FirstSaveFrom(sigs, oks, 0) == k
  {
    var a := FirstSaveFrom(sigs, oks, 0);
    assert a != -1;
    assert !(a < k);
  }

  /** Adding a signal at the end keeps an earlier first save, and otherwise
      makes the new signal the first save exactly when it saves. */
  lemma {:induction false} FirstSaveExtend(sigs: seq<Signal>, oks: seq<bool>)
    requires |oks| == |sigs| > 0
    ensures var n := |sigs| - 1;
      var k := FirstSaveFrom(sigs[..n], oks[..n], 0);
      FirstSaveFrom(sigs, oks, 0) == if k != -1 then k else if SavesAt(sigs, oks, n) then n else -1
  {
    var n := |sigs| - 1;
    var b := FirstSaveFrom(sigs[..n], oks[..n], 0);
    forall i | 0 <= i < n ensures SavesAt(sigs[..n], oks[..n], i) == SavesAt(sigs, oks, i) {
      assert sigs[..n][..i] == sigs[..i];
    }
    if b != -1 {
      FirstSaveUnique(sigs, oks, b);
    } else if SavesAt(sigs, oks, n) {
      FirstSaveUnique(sigs, oks, n);
    } else {
      assert forall i :: 0 <= i < |sigs| ==> !SavesAt(sigs, oks, i);
    }
  }

  // ---------------------------------------------------------------------
  // What a run does.

  /** What `saveMessage` does: at most one insert, and nothing else but the
      flag. */
  lemma SaveEffects(s: State, threadId: int, insertOk: bool)
    ensures var saves := !s.saved && insertOk && |Trim(s.text)| > 0;
      var t := Save(s, threadId, insertOk);
      && t.effects == s.effects + (if saves then [Inserted(AssistantRow(threadId, s.text, s.messageId))] else [])
      && t.text == s.text && t.messageId == s.messageId && t.saved == (s.saved || saves)
      && t.Frames() == s.Frames()
      && t.Rows() == s.Rows() + (if saves then [AssistantRow(threadId, s.text, s.messageId)] else [])
  {
    SaveRows(s, threadId, insertOk);
  }

  /** The projections of a save: the row it inserts, if any, and no frame. */
  lemma SaveRows(s: State, threadId: int, insertOk: bool)
    ensures var saves := !s.saved && insertOk && |Trim(s.text)| > 0;
      var t := Save(s, threadId, insertOk);
      && t.Frames() == s.Frames()
      && t.Rows() == s.Rows() + (if saves then [AssistantRow(threadId, s.text, s.messageId)] else [])
  {
    var saves := !s.saved && insertOk && |Trim(s.text)| > 0;
    if saves {
      var row := AssistantRow(threadId, s.text, s.messageId);
      ProjectAppend(s.effects, [Inserted(row)]);
      assert WrittenFrames([Inserted(row)]) == [] && InsertedRows([Inserted(row)]) == [row] by {
        assert [Inserted(row)][..0] == [];
      }
    } else {
      assert s.Rows() + [] == s.Rows();
    }
  }

  /** The state a handler has reached when it writes its frame: after the
      id capture and the save, for the handlers that do those. */
  function BeforeWrite(s: State, threadId: int, sig: Signal, insertOk: bool): State {
    match sig
    case TextCreated(id) => if Truthy(id) then s.(messageId := id) else s
    case TextDelta(v) => s.(text := s.text + OrElse(v, ""))
    case MessageCompleted(id) => Save(if Truthy(id) then s.(messageId := id) else s, threadId, insertOk)
    case _ => Save(s, threadId, insertOk)
  }

  /** Every handler ends by writing its frame. */
  lemma StepWrites(s: State, threadId: int, sig: Signal, insertOk: bool)
    ensures var b := BeforeWrite(s, threadId, sig, insertOk);
      Step(s, threadId, sig, insertOk) == b.(effects := b.effects + Writes(FrameOf(sig)))
  {
    if sig.TextCreated? {
      var b := BeforeWrite(s, threadId, sig, insertOk);
      assert FrameOf(sig) == [];
      assert b.effects + Writes([]) == b.effects;
    }
  }

  /** What one handler does to the buffer, the id and the frames. */
  lemma StepParts(s: State, threadId: int, sig: Signal, insertOk: bool)
    ensures var t := Step(s, threadId, sig, insertOk);
      && t.text == s.text + (if sig.TextDelta? then OrElse(sig.value, "") else "")
      && t.messageId == (if (sig.TextCreated? || sig.MessageCompleted?) && Truthy(sig.id) then sig.id else s.messageId)
      && t.Frames() == s.Frames() + FrameOf(sig)
  {
    var b := BeforeWrite(s, threadId, sig, insertOk);
    StepWrites(s, threadId, sig, insertOk);
    ProjectAppend(b.effects, Writes(FrameOf(sig)));
    ProjectWrites(FrameOf(sig));
    match sig
    case TextCreated(_) =>
    case TextDelta(_) =>
    case MessageCompleted(id) =>
      SaveEffects(if Truthy(id) then s.(messageId := id) else s, threadId, insertOk);
    case _ =>
      SaveEffects(s, threadId, insertOk);
  }

  /** Before its write, a handler has added at most the insert of its save. */
  lemma BeforeWriteEffects(s: State, threadId: int, sig: Signal, insertOk: bool)
    ensures var b := BeforeWrite(s, threadId, sig, insertOk);
      var n := |s.effects|;
      && n <= |b.effects| <= n + 1 && b.effects[..n] == s.effects
      && (|b.effects| == n + 1 ==> CallsSave(sig) && b.effects[n].Inserted?)
  {
    match sig
    case TextCreated(_) =>
    case TextDelta(_) =>
    case MessageCompleted(id) =>
      SaveEffects(if Truthy(id) then s.(messageId := id) else s, threadId, insertOk);
    case _ =>
      SaveEffects(s, threadId, insertOk);
  }

  /** What one handler adds to the log: the insert of its save, when there is
      one, and after it the handler's own frame. Nothing already logged
      changes. */
  lemma StepOrder(s: State, threadId: int, sig: Signal, insertOk: bool)
    ensures var es := Step(s, threadId, sig, insertOk).effects;
      var n := |s.effects|;
      && n <= |es| && es[..n] == s.effects
      && forall i :: n <= i < |es| ==>
           es[i].Wrote? || (CallsSave(sig) && i + 1 < |es| && es[i + 1] == Wrote(FrameOf(sig)[0]))
  {
    var b := BeforeWrite(s, threadId, sig, insertOk);
    var w := Writes(FrameOf(sig));
    var n := |s.effects|;
    StepWrites(s, threadId, sig, insertOk);
    BeforeWriteEffects(s, threadId, sig, insertOk);
    var es := b.effects + w;
    assert es[..n] == s.effects by {
      assert es[..n] == b.effects[..n];
    }
    forall i | n <= i < |es|
      ensures es[i].Wrote? || (CallsSave(sig) && i + 1 < |es| && es[i + 1] == Wrote(FrameOf(sig)[0]))
    {
      if i >= |b.effects| {
        assert es[i] == w[i - |b.effects|];
      } else {
        assert i == n && CallsSave(sig);
        assert es[i + 1] == w[0];
      }
    }
  }

  /** Every insert in `es` is immediately followed by a frame other than a
      token. */
  predicate InsertsThenFrame(es: seq<Effect>) {
    forall i :: 0 <= i < |es| ==>
      es[i].Wrote? || (i + 1 < |es| && es[i + 1].Wrote? && es[i + 1].frame.event != "token")
  }

  /** In the log of a whole run, every insert is immediately followed by the
      frame of the handler that made it: a `message_completed`, `done` or
      `error` frame, never a token. So a client that reloads on that frame
      finds the row already stored. */
  lemma {:induction false} InsertBeforeFrame(threadId: int, sigs: seq<Signal>, oks: seq<bool>)
    requires |oks| == |sigs|
    ensures InsertsThenFrame(Run(threadId, sigs, oks).effects)
  {
    if |sigs| > 0 {
      var n := |sigs| - 1;
      var prev := Run(threadId, sigs[..n], oks[..n]).effects;
      InsertBeforeFrame(threadId, sigs[..n], oks[..n]);
      StepOrder(Run(threadId, sigs[..n], oks[..n]), threadId, sigs[n], oks[n]);
      var es := Step(Run(threadId, sigs[..n], oks[..n]), threadId, sigs[n], oks[n]).effects;
      assert es == Run(threadId, sigs, oks).effects;
      forall i | 0 <= i < |es|
        ensures es[i].Wrote? || (i + 1 < |es| && es[i + 1].Wrote? && es[i + 1].frame.event != "token")
      {
        if i < |prev| {
          assert es[i] == es[..|prev|][i] == prev[i];
          assert InsertsThenFrame(prev);
          assert prev[i].Wrote? || (i + 1 < |prev| && prev[i + 1].Wrote? && prev[i + 1].frame.event != "token");
          if i + 1 < |prev| {
            assert es[i + 1] == es[..|prev|][i + 1] == prev[i + 1];
          }
        } else if !es[i].Wrote? {
          assert CallsSave(sigs[n]) && i + 1 < |es| && es[i + 1] == Wrote(FrameOf(sigs[n])[0]);
          assert FrameOf(sigs[n])[0].event != "token";
        }
      }
    }
  }

  /** The buffer is the concatenation of the delta values. */
  lemma {:induction false} RunText(threadId: int, sigs: seq<Signal>, oks: seq<bool>)
    requires |oks| == |sigs|
    ensures Run(threadId, sigs, oks).text == DeltaText(sigs)
  {
    if |sigs| > 0 {
      var n := |sigs| - 1;
      RunText(threadId, sigs[..n], oks[..n]);
      StepParts(Run(threadId, sigs[..n], oks[..n]), threadId, sigs[n], oks[n]);
    }
  }

  /** The upstream id is the latest truthy one seen. */
  lemma {:induction false} RunMessageId(threadId: int, sigs: seq<Signal>, oks: seq<bool>)
    requires |oks| == |sigs|
    ensures Run(threadId, sigs, oks).messageId == LastId(sigs)
  {
    if |sigs| > 0 {
      var n := |sigs| - 1;
      RunMessageId(threadId, sigs[..n], oks[..n]);
      StepParts(Run(threadId, sigs[..n], oks[..n]), threadId, sigs[n], oks[n]);
    }
  }

  /** The frames are exactly the ones the signals ask for, whatever the
      database did: a failed save never holds back a frame. */
  lemma {:induction false} RunFrames(threadId: int, sigs: seq<Signal>, oks: seq<bool>)
    requires |oks| == |sigs|
    ensures Run(threadId, sigs, oks).Frames() == AllFrames(sigs)
  {
    if |sigs| > 0 {
      var n := |sigs| - 1;
      RunFrames(threadId, sigs[..n], oks[..n]);
      StepParts(Run(threadId, sigs[..n], oks[..n]), threadId, sigs[n], oks[n]);
    }
  }

  /** The rows inserted are those of the first successful save, or none, and
      the flag is raised exactly when that row exists. */
  lemma {:induction false} RunRows(threadId: int, sigs: seq<Signal>, oks: seq<bool>)
    requires |oks| == |sigs|
    ensures Run(threadId, sigs, oks).Rows() == SavedRows(threadId, sigs, oks)
  {
    if |sigs| > 0 {
      var n := |sigs| - 1;
      var prev := Run(threadId, sigs[..n], oks[..n]);
      RunRows(threadId, sigs[..n], oks[..n]);
      RunFlag(threadId, sigs[..n], oks[..n]);
      RunText(threadId, sigs[..n], oks[..n]);
      RunMessageId(threadId, sigs[..n], oks[..n]);
      FirstSaveExtend(sigs, oks);
      StepRows(prev, threadId, sigs[n], oks[n]);
      var k := FirstSaveFrom(sigs[..n], oks[..n], 0);
      if k != -1 {
        EarlierSaveKept(threadId, sigs, oks);
      } else {
        LastSignalSaves(threadId, sigs, oks);
      }
    }
  }

  /** Once a signal before the last has saved, the last one inserts nothing. */
  lemma {:induction false} EarlierSaveKept(threadId: int, sigs: seq<Signal>, oks: seq<bool>)
    requires |oks| == |sigs| > 0
    requires FirstSaveFrom(sigs[..|sigs| - 1], oks[..|sigs| - 1], 0) != -1
    requires FirstSaveFrom(sigs, oks, 0) == FirstSaveFrom(sigs[..|sigs| - 1], oks[..|sigs| - 1], 0)
    requires Run(threadId, sigs[..|sigs| - 1], oks[..|sigs| - 1]).Rows() == SavedRows(threadId, sigs[..|sigs| - 1], oks[..|sigs| - 1])
    requires Run(threadId, sigs[..|sigs| - 1], oks[..|sigs| - 1]).saved == (Run(threadId, sigs[..|sigs| - 1], oks[..|sigs| - 1]).Rows() != [])
    ensures Run(threadId, sigs, oks).Rows() == SavedRows(threadId, sigs, oks)
  {
    var n := |sigs| - 1;
    var k := FirstSaveFrom(sigs[..n], oks[..n], 0);
    var prev := Run(threadId, sigs[..n], oks[..n]);
    var row := AssistantRow(threadId, DeltaText(sigs[..k]), LastId(sigs[..k + 1]));
    assert sigs[..n][..k] == sigs[..k];
    assert sigs[..n][..k + 1] == sigs[..k + 1];
    assert SavedRows(threadId, sigs[..n], oks[..n]) == [row];
    assert FirstSaveFrom(sigs, oks, 0) == k;
    assert SavedRows(threadId, sigs, oks) == [row];
    assert prev.saved;
    StepRows(prev, threadId, sigs[n], oks[n]);
    assert Run(threadId, sigs, oks) == Step(prev, threadId, sigs[n], oks[n]);
  }

  /** When nothing was saved before the last signal, the last signal inserts
      exactly the row that `SavedRows` predicts. */
  lemma {:induction false} LastSignalSaves(threadId: int, sigs: seq<Signal>, oks: seq<bool>)
    requires |oks| == |sigs| > 0
    requires FirstSaveFrom(sigs[..|sigs| - 1], oks[..|sigs| - 1], 0) == -1
    requires Run(threadId, sigs[..|sigs| - 1], oks[..|sigs| - 1]).Rows() == []
    requires !Run(threadId, sigs[..|sigs| - 1], oks[..|sigs| - 1]).saved
    requires Run(threadId, sigs[..|sigs| - 1], oks[..|sigs| - 1]).text == DeltaText(sigs[..|sigs| - 1])
    requires Run(threadId, sigs[..|sigs| - 1], oks[..|sigs| - 1]).messageId == LastId(sigs[..|sigs| - 1])
    requires FirstSaveFrom(sigs, oks, 0) == if SavesAt(sigs, oks, |sigs| - 1) then |sigs| - 1 else -1
    ensures Run(threadId, sigs, oks).Rows() == SavedRows(threadId, sigs, oks)
  {
    var n := |sigs| - 1;
    var prev := Run(threadId, sigs[..n], oks[..n]);
    StepRows(prev, threadId, sigs[n], oks[n]);
    assert sigs[..n + 1] == sigs;
    if SavesAt(sigs, oks, n) {
      assert Run(threadId, sigs, oks).Rows() == [AssistantRow(threadId, prev.text, LastId(sigs))];
    }
  }

  /** The flag is raised exactly when a row has been inserted. */
  lemma {:induction false} RunFlag(threadId: int, sigs: seq<Signal>, oks: seq<bool>)
    requires |oks| == |sigs|
    ensures Run(threadId, sigs, oks).saved == (Run(threadId, sigs, oks).Rows() != [])
  {
    if |sigs| > 0 {
      var n := |sigs| - 1;
      RunFlag(threadId, sigs[..n], oks[..n]);
      StepRows(Run(threadId, sigs[..n], oks[..n]), threadId, sigs[n], oks[n]);
    }
  }

  /** What one handler does to the flag and the rows: nothing once saved;
      otherwise a save-calling handler inserts the buffer with the id as it
      stands after the handler's own id capture, if the buffer is not blank
      and the insert succeeds. */
  lemma StepRows(s: State, threadId: int, sig: Signal, insertOk: bool)
    ensures var idNow := if sig.MessageCompleted? && Truthy(sig.id) then sig.id else s.messageId;
      var saves := !s.saved && CallsSave(sig) && insertOk && |Trim(s.text)| > 0;
      && Step(s, threadId, sig, insertOk).saved == (s.saved || saves)
      && Step(s, threadId, sig, insertOk).Rows() ==
           if saves then s.Rows() + [AssistantRow(threadId, s.text, idNow)] else s.Rows()
  {
    StepFlag(s, threadId, sig, insertOk);
    StepInserts(s, threadId, sig, insertOk);
  }

  lemma StepFlag(s: State, threadId: int, sig: Signal, insertOk: bool)
    ensures Step(s, threadId, sig, insertOk).saved ==
            (s.saved || (CallsSave(sig) && insertOk && |Trim(s.text)| > 0))
  {
  }

  lemma StepInserts(s: State, threadId: int, sig: Signal, insertOk: bool)
    ensures var idNow := if sig.MessageCompleted? && Truthy(sig.id) then sig.id else s.messageId;
      Step(s, threadId, sig, insertOk).Rows() ==
        if !s.saved && CallsSave(sig) && insertOk && |Trim(s.text)| > 0
        then s.Rows() + [AssistantRow(threadId, s.text, idNow)] else s.Rows()
  {
    WriteAddsNoRow(s, threadId, sig, insertOk);
    BeforeWriteRows(s, threadId, sig, insertOk);
  }

  /** A handler's frame write inserts nothing. */
  lemma WriteAddsNoRow(s: State, threadId: int, sig: Signal, insertOk: bool)
    ensures Step(s, threadId, sig, insertOk).Rows() == BeforeWrite(s, threadId, sig, insertOk).Rows()
  {
    var b := BeforeWrite(s, threadId, sig, insertOk);
    StepWrites(s, threadId, sig, insertOk);
    ProjectAppend(b.effects, Writes(FrameOf(sig)));
    ProjectWrites(FrameOf(sig));
    assert b.Rows() + [] == b.Rows();
  }

  /** The rows a handler has inserted by the time it writes. */
  lemma BeforeWriteRows(s: State, threadId: int, sig: Signal, insertOk: bool)
    ensures var idNow := if sig.MessageCompleted? && Truthy(sig.id) then sig.id else s.messageId;
      BeforeWrite(s, threadId, sig, insertOk).Rows() ==
        if !s.saved && CallsSave(sig) && insertOk && |Trim(s.text)| > 0
        then s.Rows() + [AssistantRow(threadId, s.text, idNow)] else s.Rows()
  {
    var b := BeforeWrite(s, threadId, sig, insertOk);
    if !CallsSave(sig) {
      assert b.effects == s.effects;
    } else if sig.MessageCompleted? {
      var c := if Truthy(sig.id) then s.(messageId := sig.id) else s;
      assert b == Save(c, threadId, insertOk);
      SaveRows(c, threadId, insertOk);
    } else {
      assert b == Save(s, threadId, insertOk);
      SaveRows(s, threadId, insertOk);
    }
  }

  /** The concatenated `token` payloads always equal the accumulated text:
      each delta becomes exactly one token frame with the same string. */
  lemma {:induction false} TokensSpellText(threadId: int, sigs: seq<Signal>, oks: seq<bool>)
    requires |oks| == |sigs|
    ensures TokenText(Run(threadId, sigs, oks).Frames()) == Run(threadId, sigs, oks).text
  {
    RunText(threadId, sigs, oks);
    RunFrames(threadId, sigs, oks);
    TokenTextOfAllFrames(sigs);
  }

  lemma {:induction false} TokenTextOfAllFrames(sigs: seq<Signal>)
    ensures TokenText(AllFrames(sigs)) == DeltaText(sigs)
  {
    if |sigs| > 0 {
      var n := |sigs| - 1;
      TokenTextOfAllFrames(sigs[..n]);
      var fs := AllFrames(sigs[..n]);
      if FrameOf(sigs[n]) != [] {
        assert AllFrames(sigs)[..|fs|] == fs;
      } else {
        assert AllFrames(sigs) == fs;
      }
    }
  }

  /** At most one assistant row per run; the flag is raised exactly when the
      row exists; the row is an assistant row of this thread whose content is
      not blank. */
  lemma {:induction false} AtMostOneRow(threadId: int, sigs: seq<Signal>, oks: seq<bool>)
    requires |oks| == |sigs|
    ensures var s := Run(threadId, sigs, oks);
      && |s.Rows()| <= 1
      && (s.saved <==> |s.Rows()| == 1)
      && (s.Rows() != [] ==>
            s.Rows()[0].role == Assistant && s.Rows()[0].threadId == threadId &&
            !AllWhitespace(s.Rows()[0].content))
  {
    RunRows(threadId, sigs, oks);
    RunFlag(threadId, sigs, oks);
  }

  /** Nothing is inserted unless some saving signal meets a non-blank buffer
      with a successful insert; the first such signal fixes the row. */
  lemma {:induction false} RowIsFirstSave(threadId: int, sigs: seq<Signal>, oks: seq<bool>, k: int)
    requires |oks| == |sigs|
    requires SavesAt(sigs, oks, k)
    requires forall i :: 0 <= i < k ==> !SavesAt(sigs, oks, i)
    ensures Run(threadId, sigs, oks).Rows() == [AssistantRow(threadId, DeltaText(sigs[..k]), LastId(sigs[..k + 1]))]
  {
    RunRows(threadId, sigs, oks);
  }

  lemma {:induction false} NoSaveNoRow(threadId: int, sigs: seq<Signal>, oks: seq<bool>)
    requires |oks| == |sigs|
    requires forall i :: 0 <= i < |sigs| ==> !SavesAt(sigs, oks, i)
    ensures Run(threadId, sigs, oks).Rows() == [] && !Run(threadId, sigs, oks).saved
  {
    RunRows(threadId, sigs, oks);
    RunFlag(threadId, sigs, oks);
  }

  // ---------------------------------------------------------------------
  // Whole runs of the handlers, and one sequence of signals the code
  // does not guard against.

  /** Two deltas, a completion with an id, then the end of the stream: one
      row "Hello" with upstream id "m1", and four frames in order. */
  lemma HelloScenario(threadId: int)
    ensures var sigs := [TextDelta(Some("Hel")), TextDelta(Some("lo")), MessageCompleted(Some("m1")), End];
      var s := Run(threadId, sigs, [true, true, true, true]);
      && s.Rows() == [MessageRow(threadId, Assistant, "Hello", Some("m1"), None)]
      && s.Frames() == [Frame("token", "Hel"), Frame("token", "lo"),
                        Frame("message_completed", "done"), Frame("done", "[DONE]")]
  {
    HelloRows(threadId, [TextDelta(Some("Hel")), TextDelta(Some("lo")), MessageCompleted(Some("m1")), End]);
    HelloFrames(threadId, [TextDelta(Some("Hel")), TextDelta(Some("lo")), MessageCompleted(Some("m1")), End]);
  }

  lemma HelloRows(threadId: int, sigs: seq<Signal>)
    requires sigs == [TextDelta(Some("Hel")), TextDelta(Some("lo")), MessageCompleted(Some("m1")), End]
    ensures Run(threadId, sigs, [true, true, true, true]).Rows() == [MessageRow(threadId, Assistant, "Hello", Some("m1"), None)]
  {
    var oks := [true, true, true, true];
    assert DeltaText(sigs[..2]) == "Hello" by {
      DeltaTextPrefix(sigs, 1);
      DeltaTextPrefix(sigs, 2);
    }
    assert !IsWhitespace("Hello"[0]);
    RowIsFirstSave(threadId, sigs, oks, 2);
    assert LastId(sigs[..3]) == Some("m1") by {
      LastIdPrefix(sigs, 3);
    }
  }

  lemma HelloFrames(threadId: int, sigs: seq<Signal>)
    requires sigs == [TextDelta(Some("Hel")), TextDelta(Some("lo")), MessageCompleted(Some("m1")), End]
    ensures Run(threadId, sigs, [true, true, true, true]).Frames() ==
            [Frame("token", "Hel"), Frame("token", "lo"), Frame("message_completed", "done"), Frame("done", "[DONE]")]
  {
    RunFrames(threadId, sigs, [true, true, true, true]);
    HelloAllFrames(sigs);
  }

  lemma HelloAllFrames(sigs: seq<Signal>)
    requires sigs == [TextDelta(Some("Hel")), TextDelta(Some("lo")), MessageCompleted(Some("m1")), End]
    ensures AllFrames(sigs) ==
            [Frame("token", "Hel"), Frame("token", "lo"), Frame("message_completed", "done"), Frame("done", "[DONE]")]
  {
    AllFramesPrefix(sigs, 1);
    AllFramesPrefix(sigs, 2);
    AllFramesPrefix(sigs, 3);
    AllFramesPrefix(sigs, 4);
    assert sigs[..4] == sigs;
  }

  /** A delta, then a stream error with no completion: the partial text is
      still saved, and an `error` frame follows the token; no `done`. */
  lemma PartialThenErrorScenario(threadId: int)
    ensures var sigs := [TextDelta(Some("partial")), StreamError(Some("rate limited"))];
      var s := Run(threadId, sigs, [true, true]);
      && s.Rows() == [MessageRow(threadId, Assistant, "partial", None, None)]
      && s.Frames() == [Frame("token", "partial"), Frame("error", "rate limited")]
  {
    var sigs := [TextDelta(Some("partial")), StreamError(Some("rate limited"))];
    PartialThenErrorRun(threadId, sigs, [true, true]);
  }

  lemma PartialThenErrorRun(threadId: int, sigs: seq<Signal>, oks: seq<bool>)
    requires sigs == [TextDelta(Some("partial")), StreamError(Some("rate limited"))]
    requires oks == [true, true]
    ensures Run(threadId, sigs, oks).Rows() == [MessageRow(threadId, Assistant, "partial", None, None)]
    ensures Run(threadId, sigs, oks).Frames() == [Frame("token", "partial"), Frame("error", "rate limited")]
  {
    PartialThenErrorSignals(sigs, oks);
    RowIsFirstSave(threadId, sigs, oks, 1);
    RunFrames(threadId, sigs, oks);
  }

  lemma PartialThenErrorSignals(sigs: seq<Signal>, oks: seq<bool>)
    requires sigs == [TextDelta(Some("partial")), StreamError(Some("rate limited"))]
    requires oks == [true, true]
    ensures SavesAt(sigs, oks, 1) && !SavesAt(sigs, oks, 0)
    ensures DeltaText(sigs[..1]) == "partial" && LastId(sigs[..2]) == None
    ensures AllFrames(sigs) == [Frame("token", "partial"), Frame("error", "rate limited")]
  {
    DeltaTextPrefix(sigs, 1);
    assert DeltaText(sigs[..1]) == "partial";
    assert !IsWhitespace("partial"[0]);
    assert sigs[..2] == sigs;
    assert LastId(sigs[..1]) == None;
    AllFramesPrefix(sigs, 1);
    AllFramesPrefix(sigs, 2);
  }

  /** A whitespace-only buffer is not saved at completion; the end of the
      stream saves once more text has arrived. */
  lemma BlankBufferWaits(threadId: int)
    ensures var sigs := [TextDelta(Some("  ")), MessageCompleted(None), TextDelta(Some("x")), End];
      Run(threadId, sigs, [true, true, true, true]).Rows() == [MessageRow(threadId, Assistant, "  x", None, None)]
  {
    var sigs := [TextDelta(Some("  ")), MessageCompleted(None), TextDelta(Some("x")), End];
    var oks := [true, true, true, true];
    BlankBufferSignals(sigs, oks);
    RowIsFirstSave(threadId, sigs, oks, 3);
  }

  lemma BlankBufferSignals(sigs: seq<Signal>, oks: seq<bool>)
    requires sigs == [TextDelta(Some("  ")), MessageCompleted(None), TextDelta(Some("x")), End]
    requires oks == [true, true, true, true]
    ensures SavesAt(sigs, oks, 3) && forall i :: 0 <= i < 3 ==> !SavesAt(sigs, oks, i)
    ensures DeltaText(sigs[..3]) == "  x" && LastId(sigs[..4]) == None
  {
    DeltaTextPrefix(sigs, 1);
    DeltaTextPrefix(sigs, 2);
    DeltaTextPrefix(sigs, 3);
    assert DeltaText(sigs[..3]) == "  x";
    assert !IsWhitespace("  x"[2]);
    assert AllWhitespace(DeltaText(sigs[..1]));
    LastIdPrefix(sigs, 1);
    LastIdPrefix(sigs, 2);
    LastIdPrefix(sigs, 3);
    LastIdPrefix(sigs, 4);
  }

  /** A failed insert leaves the flag down, so the next signal saves; deltas
      after a successful save are not added to the saved row. */
  lemma FailedInsertRetried(threadId: int)
    ensures var sigs := [TextDelta(Some("a")), MessageCompleted(Some("m")), End];
      Run(threadId, sigs, [true, false, true]).Rows() == [MessageRow(threadId, Assistant, "a", Some("m"), None)]
  {
    var sigs := [TextDelta(Some("a")), MessageCompleted(Some("m")), End];
    var oks := [true, false, true];
    FailedInsertSignals(sigs, oks);
    RowIsFirstSave(threadId, sigs, oks, 2);
  }

  lemma FailedInsertSignals(sigs: seq<Signal>, oks: seq<bool>)
    requires sigs == [TextDelta(Some("a")), MessageCompleted(Some("m")), End]
    requires oks == [true, false, true]
    ensures SavesAt(sigs, oks, 2) && forall i :: 0 <= i < 2 ==> !SavesAt(sigs, oks, i)
    ensures DeltaText(sigs[..2]) == "a" && LastId(sigs[..3]) == Some("m")
  {
    DeltaTextPrefix(sigs, 1);
    DeltaTextPrefix(sigs, 2);
    assert DeltaText(sigs[..2]) == "a";
    assert !IsWhitespace("a"[0]);
    LastIdPrefix(sigs, 1);
    LastIdPrefix(sigs, 2);
    LastIdPrefix(sigs, 3);
  }

  lemma LateDeltaNotSaved(threadId: int, a: string, b: string)
    requires !AllWhitespace(a)
    ensures var sigs := [TextDelta(Some(a)), MessageCompleted(None), TextDelta(Some(b)), End];
      var s := Run(threadId, sigs, [true, true, true, true]);
      s.text == a + b && s.Rows() == [MessageRow(threadId, Assistant, a, None, None)]
  {
    LateDeltaRow(threadId, [TextDelta(Some(a)), MessageCompleted(None), TextDelta(Some(b)), End], a);
    LateDeltaText(threadId, [TextDelta(Some(a)), MessageCompleted(None), TextDelta(Some(b)), End], a, b);
  }

  lemma LateDeltaRow(threadId: int, sigs: seq<Signal>, a: string)
    requires |sigs| == 4 && sigs[0] == TextDelta(Some(a)) && sigs[1] == MessageCompleted(None)
    requires !AllWhitespace(a)
    ensures Run(threadId, sigs, [true, true, true, true]).Rows() == [MessageRow(threadId, Assistant, a, None, None)]
  {
    var oks := [true, true, true, true];
    assert DeltaText(sigs[..1]) == a by {
      DeltaTextPrefix(sigs, 1);
      assert "" + a == a;
    }
    RowIsFirstSave(threadId, sigs, oks, 1);
    LastIdPrefix(sigs, 1);
    LastIdPrefix(sigs, 2);
  }

  lemma LateDeltaText(threadId: int, sigs: seq<Signal>, a: string, b: string)
    requires sigs == [TextDelta(Some(a)), MessageCompleted(None), TextDelta(Some(b)), End]
    ensures Run(threadId, sigs, [true, true, true, true]).text == a + b
  {
    RunText(threadId, sigs, [true, true, true, true]);
    LateDeltaSignals(sigs, a, b);
  }

  lemma LateDeltaSignals(sigs: seq<Signal>, a: string, b: string)
    requires sigs == [TextDelta(Some(a)), MessageCompleted(None), TextDelta(Some(b)), End]
    ensures DeltaText(sigs) == a + b
  {
    assert DeltaText(sigs[..1]) == a by {
      DeltaTextPrefix(sigs, 1);
      assert "" + a == a;
    }
    assert DeltaText(sigs[..2]) == a by {
      DeltaTextPrefix(sigs, 2);
      assert a + "" == a;
    }
    assert DeltaText(sigs[..3]) == a + b by {
      DeltaTextPrefix(sigs, 3);
      assert OrElse(Some(b), "") == b;
    }
    assert DeltaText(sigs[..4]) == a + b by {
      DeltaTextPrefix(sigs, 4);
      assert (a + b) + "" == a + b;
    }
    assert sigs[..4] == sigs;
  }

  /** Nothing stops a stream error from being followed by the `catch`: the
      client then receives two `error` frames. */
  lemma ErrorThenThrownWritesTwoErrors(threadId: int)
    ensures var sigs := [StreamError(Some("boom")), Thrown(None)];
      Run(threadId, sigs, [true, true]).Frames() == [Frame("error", "boom"), Frame("error", "Failed to stream")]
  {
    var sigs := [StreamError(Some("boom")), Thrown(None)];
    RunFrames(threadId, sigs, [true, true]);
    assert sigs[..1] == [sigs[0]];
  }

  // ---------------------------------------------------------------------
  // The closure itself.

  /** One invocation of the `streamSSE` callback: its three `let` variables,
      and the frames written to `stream` and the assistant rows inserted,
      logged in the order they happen. Each handler method is one registered
      callback run to completion. */
  class RelayRun {
    const threadId: int
    var assistantText: string
    var messageSaved: bool
    var openaiMessageId: Option<string>
    var effects: seq<Effect>

    function Snapshot(): State
      reads this
    {
      State(assistantText, messageSaved, openaiMessageId, effects)
    }

    constructor (threadId: int)
      ensures this.threadId == threadId && Snapshot() == Initial
    {
      this.threadId := threadId;
      assistantText := "";
      messageSaved := false;
      openaiMessageId := None;
      effects := [];
    }

    /** `saveMessage`; a failed INSERT is logged and swallowed. */
    method SaveMessage(insertOk: bool)
      modifies this
      ensures Snapshot() == Save(old(Snapshot()), threadId, insertOk)
    {
      if |Trim(assistantText)| > 0 && !messageSaved {
        if insertOk {
          effects := effects + [Inserted(AssistantRow(threadId, assistantText, openaiMessageId))];
          messageSaved := true;
        }
      }
    }

    /** `stream.writeSSE`. */
    method Write(frame: Frame)
      modifies this
      ensures Snapshot() == old(Snapshot()).(effects := old(effects) + [Wrote(frame)])
    {
      effects := effects + [Wrote(frame)];
    }

    method OnTextCreated(id: Option<string>)
      modifies this
      ensures Snapshot() == Step(old(Snapshot()), threadId, TextCreated(id), false)
    {
      if Truthy(id) {
        openaiMessageId := id;
      }
    }

    method OnTextDelta(value: Option<string>)
      modifies this
      ensures Snapshot() == Step(old(Snapshot()), threadId, TextDelta(value), false)
    {
      var piece := if Truthy(value) then value.value else "";
      assistantText := assistantText + piece;
      Write(Frame("token", piece));
      assert Writes(FrameOf(TextDelta(value))) == [Wrote(Frame("token", piece))];
    }

    method OnMessageCompleted(id: Option<string>, insertOk: bool)
      modifies this
      ensures Snapshot() == Step(old(Snapshot()), threadId, MessageCompleted(id), insertOk)
      ensures var captured := if Truthy(id) then old(Snapshot()).(messageId := id) else old(Snapshot());
              effects == Save(captured, threadId, insertOk).effects + [Wrote(Frame("message_completed", "done"))]
    {
      if Truthy(id) {
        openaiMessageId := id;
      }
      ghost var saved := Save(Snapshot(), threadId, insertOk);
      SaveMessage(insertOk);
      Write(Frame("message_completed", "done"));
      assert Writes(FrameOf(MessageCompleted(id))) == [Wrote(Frame("message_completed", "done"))];
      assert Snapshot() == saved.(effects := saved.effects + Writes(FrameOf(MessageCompleted(id))));
    }

    method OnEnd(insertOk: bool)
      modifies this
      ensures Snapshot() == Step(old(Snapshot()), threadId, End, insertOk)
      ensures effects == Save(old(Snapshot()), threadId, insertOk).effects + [Wrote(Frame("done", "[DONE]"))]
    {
      ghost var saved := Save(Snapshot(), threadId, insertOk);
      SaveMessage(insertOk);
      Write(Frame("done", "[DONE]"));
      assert Writes(FrameOf(End)) == [Wrote(Frame("done", "[DONE]"))];
      assert Snapshot() == saved.(effects := saved.effects + Writes(FrameOf(End)));
    }

    method OnError(message: Option<string>, insertOk: bool)
      modifies this
      ensures Snapshot() == Step(old(Snapshot()), threadId, StreamError(message), insertOk)
      ensures effects == Save(old(Snapshot()), threadId, insertOk).effects +
                         [Wrote(Frame("error", OrElse(message, "stream error")))]
    {
      ghost var saved := Save(Snapshot(), threadId, insertOk);
      SaveMessage(insertOk);
      Write(Frame("error", if Truthy(message) then message.value else "stream error"));
      assert Writes(FrameOf(StreamError(message))) == [Wrote(Frame("error", OrElse(message, "stream error")))];
      assert Snapshot() == saved.(effects := saved.effects + Writes(FrameOf(StreamError(message))));
    }

    /** The `catch` around opening and awaiting the run. */
    method OnThrown(message: Option<string>, insertOk: bool)
      modifies this
      ensures Snapshot() == Step(old(Snapshot()), threadId, Thrown(message), insertOk)
      ensures effects == Save(old(Snapshot()), threadId, insertOk).effects +
                         [Wrote(Frame("error", OrElse(message, "Failed to stream")))]
    {
      ghost var saved := Save(Snapshot(), threadId, insertOk);
      SaveMessage(insertOk);
      Write(Frame("error", if Truthy(message) then message.value else "Failed to stream"));
      assert Writes(FrameOf(Thrown(message))) == [Wrote(Frame("error", OrElse(message, "Failed to stream")))];
      assert Snapshot() == saved.(effects := saved.effects + Writes(FrameOf(Thrown(message))));
    }

    /** Routes a signal to its handler, as the `runStream.on` registrations do. */
    method Dispatch(sig: Signal, insertOk: bool)
      modifies this
      ensures Snapshot() == Step(old(Snapshot()), threadId, sig, insertOk)
    {
      match sig
      case TextCreated(id) => OnTextCreated(id);
      case TextDelta(v) => OnTextDelta(v);
      case MessageCompleted(id) => OnMessageCompleted(id, insertOk);
      case End => OnEnd(insertOk);
      case StreamError(m) => OnError(m, insertOk);
      case Thrown(m) => OnThrown(m, insertOk);
    }
  }
}
