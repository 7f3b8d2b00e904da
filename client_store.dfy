/**
 * The client's application store: the lists the sidebar and the chat view
 * show, the current selection, the `loading`/`streaming` flags, the last
 * error and the theme, and the actions that change them. `sendMessage`
 * merges the streamed tokens into the transcript through a single synthetic
 * assistant entry (id -1) that every token replaces.
 *
 * API calls are not performed: each action receives the outcome of the call
 * it would make, a value or the message of the error it throws. `Date.now()`
 * and `new Date().toISOString()` are the parameters `now` and `stamp`.
 */
module ClientStore {
  import opened JsString
  import opened MessageStore
  import opened EventStream

  /** One transcript entry as the API returns it. */
  datatype Message = Message(id: int, threadId: int, role: Role, content: string, createdAt: string)

  datatype Theme = Light | Dark

  /** The outcome of an awaited API call. */
  datatype Fetched<T> = Fetched(value: T) | Threw(message: string)

  /** The message of the `TypeError` that reading `id` of `undefined` raises
      (V8's wording). */
  const UndefinedIdError: string := "Cannot read properties of undefined (reading 'id')"

  /** Every field of the store. */
  datatype StoreState = StoreState(
    assistants: seq<AssistantRecord>,
    threads: seq<ThreadRecord>,
    messages: seq<Message>,
    selectedAssistantId: Option<int>,
    selectedAssistant: Option<AssistantRecord>,
    selectedThreadId: Option<int>,
    loading: bool,
    streaming: bool,
    error: Option<string>,
    theme: Theme)

  const InitialStore: StoreState := StoreState([], [], [], None, None, None, false, false, None, Dark)

  /** The theme `toggleTheme` switches to. */
  function Flip(t: Theme): (r: Theme)
    ensures r != t
  {
    if t == Light then Dark else Light
  }

  // ---------------------------------------------------------------------
  // The transcript merge.

  /** The entry that stands for the assistant's answer while it streams. */
  predicate IsSynthetic(m: Message) {
    m.role == Assistant && m.id == -1
  }

  function Synthetic(threadId: int, content: string, stamp: string): Message {
    Message(-1, threadId, Assistant, content, stamp)
  }

  /** `messages.filter(m => m.role !== 'assistant' || m.id !== -1)`. */
  function WithoutSynthetic(ms: seq<Message>): (r: seq<Message>)
    ensures |r| <= |ms|
    ensures forall i :: 0 <= i < |r| ==> !IsSynthetic(r[i])
  {
    if ms == [] then []
    else
      var n := |ms| - 1;
      WithoutSynthetic(ms[..n]) + (if IsSynthetic(ms[n]) then [] else [ms[n]])
  }

  /** The filter keeps exactly the entries that are not the synthetic one. */
  lemma {:induction false} WithoutSyntheticMembers(ms: seq<Message>)
    ensures forall m :: m in WithoutSynthetic(ms) <==> m in ms && !IsSynthetic(m)
  {
    if ms != [] {
      var n := |ms| - 1;
      WithoutSyntheticMembers(ms[..n]);
      assert ms == ms[..n] + [ms[n]];
    }
  }

  /** The filter keeps the order: it distributes over concatenation. */
  lemma {:induction false} WithoutSyntheticAppend(a: seq<Message>, b: seq<Message>)
    ensures WithoutSynthetic(a + b) == WithoutSynthetic(a) + WithoutSynthetic(b)
    decreases |b|
  {
    if b == [] {
      assert a + b == a;
    } else {
      var n := |b| - 1;
      WithoutSyntheticAppend(a, b[..n]);
      assert (a + b)[..|a + b| - 1] == a + b[..n];
    }
  }

  /** A list without the synthetic entry passes the filter unchanged. */
  lemma {:induction false} WithoutSyntheticNoop(ms: seq<Message>)
    requires forall i :: 0 <= i < |ms| ==> !IsSynthetic(ms[i])
    ensures WithoutSynthetic(ms) == ms
  {
    if ms != [] {
      var n := |ms| - 1;
      WithoutSyntheticNoop(ms[..n]);
      assert ms[..n] + [ms[n]] == ms;
    }
  }

  function SyntheticCount(ms: seq<Message>): nat {
    if ms == [] then 0
    else SyntheticCount(ms[..|ms| - 1]) + (if IsSynthetic(ms[|ms| - 1]) then 1 else 0)
  }

  lemma {:induction false} NoSyntheticCount(ms: seq<Message>)
    requires forall i :: 0 <= i < |ms| ==> !IsSynthetic(ms[i])
    ensures SyntheticCount(ms) == 0
  {
    if ms != [] {
      NoSyntheticCount(ms[..|ms| - 1]);
    }
  }

  /** The `set` of the token handler: the synthetic entry goes, and comes back
      at the end with the whole buffer as content. */
  function MergeToken(ms: seq<Message>, threadId: int, buffer: string, stamp: string): (r: seq<Message>)
    ensures |r| >= 1 && r[|r| - 1] == Synthetic(threadId, buffer, stamp)
  {
    WithoutSynthetic(ms) + [Synthetic(threadId, buffer, stamp)]
  }

  /** After a merge the list holds exactly one synthetic entry, the last one,
      and every other entry it held before. */
  lemma {:induction false} SingleSynthetic(ms: seq<Message>, threadId: int, buffer: string, stamp: string)
    ensures var r := MergeToken(ms, threadId, buffer, stamp);
            SyntheticCount(r) == 1 &&
            (forall i :: 0 <= i < |r| - 1 ==> !IsSynthetic(r[i])) &&
            (forall i :: 0 <= i < |ms| && !IsSynthetic(ms[i]) ==> ms[i] in r)
  {
    MergedCount(ms, threadId, buffer, stamp);
    MergedKeeps(ms, threadId, buffer, stamp);
  }

  lemma {:induction false} MergedCount(ms: seq<Message>, threadId: int, buffer: string, stamp: string)
    ensures var r := MergeToken(ms, threadId, buffer, stamp);
            SyntheticCount(r) == 1 && forall i :: 0 <= i < |r| - 1 ==> !IsSynthetic(r[i])
  {
    var kept := WithoutSynthetic(ms);
    var r := kept + [Synthetic(threadId, buffer, stamp)];
    NoSyntheticCount(kept);
    assert r[..|r| - 1] == kept;
    assert SyntheticCount(r) == SyntheticCount(kept) + 1;
    forall i | 0 <= i < |r| - 1 ensures !IsSynthetic(r[i]) {
      assert r[i] == kept[i];
    }
  }

  lemma {:induction false} MergedKeeps(ms: seq<Message>, threadId: int, buffer: string, stamp: string)
    ensures forall i :: 0 <= i < |ms| && !IsSynthetic(ms[i]) ==> ms[i] in MergeToken(ms, threadId, buffer, stamp)
  {
    var kept := WithoutSynthetic(ms);
    WithoutSyntheticMembers(ms);
    forall i | 0 <= i < |ms| && !IsSynthetic(ms[i])
      ensures ms[i] in MergeToken(ms, threadId, buffer, stamp)
    {
      assert ms[i] in kept;
    }
  }

  /** A second merge replaces the first one's synthetic entry. */
  lemma MergeReplaces(ms: seq<Message>, threadId: int, b1: string, b2: string, s1: string, s2: string)
    ensures MergeToken(MergeToken(ms, threadId, b1, s1), threadId, b2, s2) == MergeToken(ms, threadId, b2, s2)
  {
    var kept := WithoutSynthetic(ms);
    WithoutSyntheticAppend(kept, [Synthetic(threadId, b1, s1)]);
    WithoutSyntheticNoop(kept);
    assert WithoutSynthetic([Synthetic(threadId, b1, s1)]) == [] by {
      assert [Synthetic(threadId, b1, s1)][..0] == [];
    }
  }

  // ---------------------------------------------------------------------
  // The loading actions, as functions of the store.

  /** `loadAssistants`: the first assistant is selected; an empty list makes
      `data[0].id` throw before anything is stored. */
  function AssistantsLoaded(s: StoreState, r: Fetched<seq<AssistantRecord>>): StoreState {
    var s1 := s.(loading := true, error := None);
    var s2 :=
      match r
      case Fetched(data) =>
        if |data| == 0 then s1.(error := Some(UndefinedIdError))
        else s1.(assistants := data, selectedAssistantId := Some(data[0].id), selectedAssistant := Some(data[0]))
      case Threw(m) => s1.(error := Some(m));
    s2.(loading := false)
  }

  /** `loadThreads`. */
  function ThreadsLoaded(s: StoreState, r: Fetched<seq<ThreadRecord>>): StoreState {
    var s1 := s.(loading := true, error := None);
    var s2 := match r
      case Fetched(data) => s1.(threads := data)
      case Threw(m) => s1.(error := Some(m));
    s2.(loading := false)
  }

  /** `loadMessages`. */
  function MessagesLoaded(s: StoreState, r: Fetched<seq<Message>>): StoreState {
    var s1 := s.(loading := true, error := None);
    var s2 := match r
      case Fetched(data) => s1.(messages := data)
      case Threw(m) => s1.(error := Some(m));
    s2.(loading := false)
  }

  /** The selected assistant is the first one with the selected id. */
  predicate SelectionConsistent(s: StoreState) {
    s.selectedAssistant ==
      if s.selectedAssistantId.Some? then FindAssistant(s.assistants, s.selectedAssistantId.value) else None
  }

  /** `loadAssistants` ends idle; it stores the list and selects its first
      entry exactly when the call returns a non-empty list, and otherwise
      leaves the list and the selection alone and records an error: the
      thrown message, or the `TypeError` of reading `data[0].id` when the
      list is empty. */
  lemma LoadAssistantsOutcome(s: StoreState, r: Fetched<seq<AssistantRecord>>)
    ensures var t := AssistantsLoaded(s, r);
            !t.loading &&
            (t.error.None? <==> r.Fetched? && |r.value| > 0) &&
            (r.Fetched? && |r.value| > 0 ==>
               t.assistants == r.value && t.selectedAssistant == Some(r.value[0]) &&
               SelectionConsistent(t)) &&
            (r.Fetched? && |r.value| == 0 ==> t == s.(loading := false, error := Some(UndefinedIdError))) &&
            (r.Threw? ==> t == s.(loading := false, error := Some(r.message))) &&
            (SelectionConsistent(s) ==> SelectionConsistent(t))
  {
  }

  // ---------------------------------------------------------------------
  // `sendMessage`, as functions of the store.

  /** The optimistic user entry. */
  function Optimistic(threadId: int, content: string, now: int, stamp: string): Message {
    Message(now, threadId, User, content, stamp)
  }

  /** The store and the closure's `assistantBuffer` between callbacks. */
  datatype Progress = Progress(store: StoreState, buffer: string)

  /** The callbacks `sendMessage` registers; it registers none for
      `message_completed`. `onDone` starts `loadMessages`, taken here to
      complete before the next callback, with outcome `reload`. */
  function Handle(p: Progress, threadId: int, stamp: string, c: Callback,
                  reload: Fetched<seq<Message>>): Progress
  {
    match c
    case OnToken(t) =>
      var b := p.buffer + t;
      Progress(p.store.(messages := MergeToken(p.store.messages, threadId, b, stamp)), b)
    case OnCompleted => p
    case OnDone => p.(store := MessagesLoaded(p.store, reload))
    case OnError(m) => p.(store := p.store.(error := Some(m)))
  }

  /** The callbacks in the order the stream reader calls them. */
  function Deliver(p: Progress, threadId: int, stamp: string, calls: seq<Callback>,
                   reload: Fetched<seq<Message>>): Progress
  {
    if calls == [] then p
    else
      var n := |calls| - 1;
      Handle(Deliver(p, threadId, stamp, calls[..n], reload), threadId, stamp, calls[n], reload)
  }

  /** The concatenated texts of the token callbacks. */
  function Tokens(calls: seq<Callback>): string {
    if calls == [] then ""
    else
      var n := |calls| - 1;
      Tokens(calls[..n]) + (if calls[n].OnToken? then calls[n].text else "")
  }

  predicate HasToken(calls: seq<Callback>) {
    exists i :: 0 <= i < |calls| && calls[i].OnToken?
  }

  predicate NoDone(calls: seq<Callback>) {
    forall i :: 0 <= i < |calls| ==> !calls[i].OnDone?
  }

  /** The state before the first callback. */
  function Begin(s: StoreState, threadId: int, content: string, now: int, stamp: string): StoreState {
    s.(streaming := true, error := None, messages := s.messages + [Optimistic(threadId, content, now, stamp)])
  }

  /** The `catch` and the `finally`. */
  function Finish(s: StoreState, thrown: Option<string>): StoreState {
    (if thrown.Some? then s.(error := thrown) else s).(streaming := false)
  }

  /** The whole action: callbacks `calls`, then `thrown` if `streamChat`
      throws after them. */
  function AfterSend(s: StoreState, threadId: int, content: string, now: int, stamp: string,
                     calls: seq<Callback>, thrown: Option<string>, reload: Fetched<seq<Message>>): StoreState
  {
    Finish(Deliver(Progress(Begin(s, threadId, content, now, stamp), ""), threadId, stamp, calls, reload).store, thrown)
  }

  /** The buffer is the concatenation of every token so far. */
  lemma {:induction false} DeliverBuffer(p: Progress, threadId: int, stamp: string, calls: seq<Callback>,
                                         reload: Fetched<seq<Message>>)
    ensures Deliver(p, threadId, stamp, calls, reload).buffer == p.buffer + Tokens(calls)
  {
    if calls != [] {
      DeliverBuffer(p, threadId, stamp, calls[..|calls| - 1], reload);
    }
  }

  /** Callbacks change only the transcript, the error and the loading flag. */
  lemma {:induction false} DeliverKeeps(p: Progress, threadId: int, stamp: string, calls: seq<Callback>,
                                        reload: Fetched<seq<Message>>)
    ensures var q := Deliver(p, threadId, stamp, calls, reload).store;
            q == p.store.(messages := q.messages, error := q.error, loading := q.loading)
  {
    if calls != [] {
      DeliverKeeps(p, threadId, stamp, calls[..|calls| - 1], reload);
    }
  }

  /** Until a `done`, the transcript is the one the callbacks started from,
      merged once with the whole buffer as soon as a token has arrived. */
  lemma {:induction false} DeliverTranscript(p: Progress, threadId: int, stamp: string,
                                             calls: seq<Callback>, reload: Fetched<seq<Message>>)
    requires NoDone(calls)
    ensures var q := Deliver(p, threadId, stamp, calls, reload);
            q.store.messages ==
              if HasToken(calls) then MergeToken(p.store.messages, threadId, q.buffer, stamp)
              else p.store.messages
  {
    if calls != [] {
      var n := |calls| - 1;
      var front := calls[..n];
      assert forall i :: 0 <= i < n ==> front[i] == calls[i];
      DeliverTranscript(p, threadId, stamp, front, reload);
      var q := Deliver(p, threadId, stamp, front, reload);
      if calls[n].OnToken? {
        if HasToken(front) {
          MergeReplaces(p.store.messages, threadId, q.buffer, q.buffer + calls[n].text, stamp, stamp);
        }
      } else {
        assert HasToken(calls) ==> HasToken(front);
      }
    }
  }

  /** The transcript `sendMessage` leaves when the stream brings no `done`:
      the earlier entries in order, the optimistic user entry after them, and
      once a token has arrived exactly one synthetic entry, last, holding all
      tokens. Every other entry is kept, a user entry with id -1 included. */
  lemma SendTranscript(s: StoreState, threadId: int, content: string, now: int, stamp: string,
                       calls: seq<Callback>, thrown: Option<string>, reload: Fetched<seq<Message>>)
    requires NoDone(calls)
    ensures var ms := AfterSend(s, threadId, content, now, stamp, calls, thrown, reload).messages;
            var user := Optimistic(threadId, content, now, stamp);
            if HasToken(calls) then
              ms == WithoutSynthetic(s.messages) + [user, Synthetic(threadId, Tokens(calls), stamp)] &&
              SyntheticCount(ms) == 1
            else ms == s.messages + [user]
  {
    var user := Optimistic(threadId, content, now, stamp);
    var p := Progress(Begin(s, threadId, content, now, stamp), "");
    var q := Deliver(p, threadId, stamp, calls, reload);
    DeliverTranscript(p, threadId, stamp, calls, reload);
    DeliverBuffer(p, threadId, stamp, calls, reload);
    assert "" + Tokens(calls) == Tokens(calls);
    var ms := AfterSend(s, threadId, content, now, stamp, calls, thrown, reload).messages;
    assert ms == q.store.messages;
    if HasToken(calls) {
      var synth := Synthetic(threadId, Tokens(calls), stamp);
      WithoutSyntheticAppend(s.messages, [user]);
      assert WithoutSynthetic([user]) == [user] by {
        assert [user][..0] == [];
      }
      assert q.store.messages == (WithoutSynthetic(s.messages) + [user]) + [synth];
      assert [user, synth] == [user] + [synth];
      SeqAssoc(WithoutSynthetic(s.messages), [user], [synth]);
      SingleSynthetic(s.messages + [user], threadId, Tokens(calls), stamp);
    }
  }

  /** `sendMessage` always ends with `streaming` false; a throw leaves its
      message as the error; without a throw, an error callback or a `done`
      the error stays cleared; nothing outside the transcript, the error and
      the flags changes. */
  lemma SendFlags(s: StoreState, threadId: int, content: string, now: int, stamp: string,
                  calls: seq<Callback>, thrown: Option<string>, reload: Fetched<seq<Message>>)
    ensures var t := AfterSend(s, threadId, content, now, stamp, calls, thrown, reload);
            !t.streaming &&
            (thrown.Some? ==> t.error == thrown) &&
            (thrown.None? && NoDone(calls) && (forall i :: 0 <= i < |calls| ==> !calls[i].OnError?) ==>
               t.error.None?) &&
            t == s.(messages := t.messages, error := t.error, loading := t.loading, streaming := false)
  {
    var p := Progress(Begin(s, threadId, content, now, stamp), "");
    DeliverKeeps(p, threadId, stamp, calls, reload);
    if thrown.None? && NoDone(calls) && (forall i :: 0 <= i < |calls| ==> !calls[i].OnError?) {
      NoErrorCallback(p, threadId, stamp, calls, reload);
    }
  }

  lemma {:induction false} NoErrorCallback(p: Progress, threadId: int, stamp: string,
                                           calls: seq<Callback>, reload: Fetched<seq<Message>>)
    requires forall i :: 0 <= i < |calls| ==> !calls[i].OnError? && !calls[i].OnDone?
    ensures Deliver(p, threadId, stamp, calls, reload).store.error == p.store.error
  {
    if calls != [] {
      var n := |calls| - 1;
      assert forall i :: 0 <= i < n ==> calls[..n][i] == calls[i];
      NoErrorCallback(p, threadId, stamp, calls[..n], reload);
    }
  }

  /** A `done` whose reload succeeds replaces the transcript by the server's
      list, synthetic entry and optimistic entry included. */
  lemma SendDoneReloads(s: StoreState, threadId: int, content: string, now: int, stamp: string,
                        before: seq<Callback>, server: seq<Message>)
    ensures var t := AfterSend(s, threadId, content, now, stamp, before + [OnDone], None, Fetched(server));
            t.messages == server && t.error.None? && !t.loading && !t.streaming
  {
    assert (before + [OnDone])[..|before|] == before;
  }

  /** An error callback sets the error and nothing else: the synthetic entry
      and the buffer stay. */
  lemma SendErrorOnlySetsError(s: StoreState, threadId: int, content: string, now: int, stamp: string,
                               before: seq<Callback>, m: string, reload: Fetched<seq<Message>>)
    ensures AfterSend(s, threadId, content, now, stamp, before + [OnError(m)], None, reload) ==
            AfterSend(s, threadId, content, now, stamp, before, None, reload).(error := Some(m))
  {
    assert (before + [OnError(m)])[..|before|] == before;
  }

  // ---------------------------------------------------------------------
  // `updateAssistant`.

  /** `assistants.map(x => x.id === id ? updated : x)`. */
  function ReplaceById(xs: seq<AssistantRecord>, id: int, updated: AssistantRecord): (r: seq<AssistantRecord>)
    ensures |r| == |xs|
    ensures forall i :: 0 <= i < |xs| ==> r[i] == if xs[i].id == id then updated else xs[i]
  {
    if xs == [] then []
    else
      var n := |xs| - 1;
      ReplaceById(xs[..n], id, updated) + [if xs[n].id == id then updated else xs[n]]
  }

  /** After an update that keeps the id, looking the id up finds the update
      exactly when it found something before, and other ids find what they
      found before. */
  lemma {:induction false} FindAfterReplace(xs: seq<AssistantRecord>, id: int, updated: AssistantRecord, other: int)
    requires updated.id == id && other != id
    ensures FindAssistant(ReplaceById(xs, id, updated), id) ==
            if FindAssistant(xs, id).Some? then Some(updated) else None
    ensures FindAssistant(ReplaceById(xs, id, updated), other) == FindAssistant(xs, other)
  {
    if xs != [] {
      var r := ReplaceById(xs, id, updated);
      assert r[1..] == ReplaceById(xs[1..], id, updated);
      FindAfterReplace(xs[1..], id, updated, other);
    }
  }

  // ---------------------------------------------------------------------
  // The store object.

  class Store {
    var assistants: seq<AssistantRecord>
    var threads: seq<ThreadRecord>
    var messages: seq<Message>
    var selectedAssistantId: Option<int>
    var selectedAssistant: Option<AssistantRecord>
    var selectedThreadId: Option<int>
    var loading: bool
    var streaming: bool
    var error: Option<string>
    var theme: Theme

    function Snapshot(): StoreState
      reads this
    {
      StoreState(assistants, threads, messages, selectedAssistantId, selectedAssistant,
                 selectedThreadId, loading, streaming, error, theme)
    }

    constructor ()
      ensures Snapshot() == InitialStore
    {
      assistants, threads, messages := [], [], [];
      selectedAssistantId, selectedAssistant, selectedThreadId := None, None, None;
      loading, streaming, error, theme := false, false, None, Dark;
    }

    method LoadAssistants(r: Fetched<seq<AssistantRecord>>)
      modifies this
      ensures Snapshot() == AssistantsLoaded(old(Snapshot()), r)
    {
      loading, error := true, None;
      match r {
        case Fetched(data) =>
          if |data| == 0 {
            error := Some(UndefinedIdError);
          } else {
            assistants, selectedAssistantId, selectedAssistant := data, Some(data[0].id), Some(data[0]);
          }
        case Threw(m) =>
          error := Some(m);
      }
      loading := false;
    }

    method LoadThreads(r: Fetched<seq<ThreadRecord>>)
      modifies this
      ensures Snapshot() == ThreadsLoaded(old(Snapshot()), r)
    {
      loading, error := true, None;
      match r {
        case Fetched(data) => threads := data;
        case Threw(m) => error := Some(m);
      }
      loading := false;
    }

    method LoadMessages(r: Fetched<seq<Message>>)
      modifies this
      ensures Snapshot() == MessagesLoaded(old(Snapshot()), r)
    {
      loading, error := true, None;
      match r {
        case Fetched(data) => messages := data;
        case Threw(m) => error := Some(m);
      }
      loading := false;
    }

    /** `selectAssistant(id)`; `threadsOf` is the outcome of `loadThreads(id)`,
        which runs only for a truthy id. */
    method SelectAssistant(id: Option<int>, threadsOf: Fetched<seq<ThreadRecord>>)
      modifies this
      ensures var picked := old(Snapshot()).(
                selectedAssistantId := id,
                selectedAssistant := if id.Some? then FindAssistant(old(assistants), id.value) else None,
                selectedThreadId := None, messages := []);
              Snapshot() == if TruthyId(id) then ThreadsLoaded(picked, threadsOf) else picked
      ensures SelectionConsistent(Snapshot())
    {
      selectedAssistantId := id;
      selectedAssistant := if id.Some? then FindAssistant(assistants, id.value) else None;
      selectedThreadId, messages := None, [];
      if TruthyId(id) {
        LoadThreads(threadsOf);
      }
    }

    /** `createAssistant`: the new assistant goes first and its id is
        selected (the selected record itself is not updated); `threadsOf` is
        the outcome of `loadThreads(a.id)`. */
    method CreateAssistant(created: Fetched<AssistantRecord>, threadsOf: Fetched<seq<ThreadRecord>>)
      modifies this
      ensures var s1 := old(Snapshot()).(loading := true, error := None);
              Snapshot() ==
                match created
                case Fetched(a) =>
                  ThreadsLoaded(s1.(assistants := [a] + s1.assistants, selectedAssistantId := Some(a.id)),
                                threadsOf).(loading := false)
                case Threw(m) => s1.(error := Some(m), loading := false)
    {
      loading, error := true, None;
      match created {
        case Fetched(a) =>
          assistants, selectedAssistantId := [a] + assistants, Some(a.id);
          LoadThreads(threadsOf);
        case Threw(m) =>
          error := Some(m);
      }
      loading := false;
    }

    /** `updateAssistant(id, p)`; `r` is the outcome of the API call. */
    method UpdateAssistant(id: int, r: Fetched<AssistantRecord>)
      modifies this
      ensures var s1 := old(Snapshot()).(loading := true, error := None);
              Snapshot() ==
                match r
                case Fetched(u) => s1.(assistants := ReplaceById(s1.assistants, id, u), loading := false)
                case Threw(m) => s1.(error := Some(m), loading := false)
    {
      loading, error := true, None;
      match r {
        case Fetched(u) => assistants := ReplaceById(assistants, id, u);
        case Threw(m) => error := Some(m);
      }
      loading := false;
    }

    /** `createThread`: the new thread goes first and is selected;
        `messagesOf` is the outcome of `loadMessages(t.id)`. */
    method CreateThread(created: Fetched<ThreadRecord>, messagesOf: Fetched<seq<Message>>)
      modifies this
      ensures var s1 := old(Snapshot()).(loading := true, error := None);
              Snapshot() ==
                match created
                case Fetched(t) =>
                  MessagesLoaded(s1.(threads := [t] + s1.threads, selectedThreadId := Some(t.id)),
                                 messagesOf).(loading := false)
                case Threw(m) => s1.(error := Some(m), loading := false)
    {
      loading, error := true, None;
      match created {
        case Fetched(t) =>
          threads, selectedThreadId := [t] + threads, Some(t.id);
          LoadMessages(messagesOf);
        case Threw(m) =>
          error := Some(m);
      }
      loading := false;
    }

    /** `selectThread(id)`; `messagesOf` is the outcome of `loadMessages(id)`,
        which runs only for a truthy id. */
    method SelectThread(id: Option<int>, messagesOf: Fetched<seq<Message>>)
      modifies this
      ensures var picked := old(Snapshot()).(selectedThreadId := id, messages := []);
              Snapshot() == if TruthyId(id) then MessagesLoaded(picked, messagesOf) else picked
    {
      selectedThreadId, messages := id, [];
      if TruthyId(id) {
        LoadMessages(messagesOf);
      }
    }

    method SetTheme(t: Theme)
      modifies this
      ensures Snapshot() == old(Snapshot()).(theme := t)
    {
      theme := t;
    }

    method ToggleTheme()
      modifies this
      ensures Snapshot() == old(Snapshot()).(theme := Flip(old(theme)))
    {
      var next := if theme == Light then Dark else Light;
      SetTheme(next);
    }

    /** The token callback: `assistantBuffer += t`, then the merge. */
    method TokenArrived(threadId: int, stamp: string, buffer: string, t: string) returns (next: string)
      modifies this
      ensures next == buffer + t
      ensures Snapshot() == old(Snapshot()).(messages := MergeToken(old(messages), threadId, next, stamp))
    {
      next := buffer + t;
      var kept := WithoutSynthetic(messages);
      messages := kept + [Synthetic(threadId, next, stamp)];
    }

    /** `sendMessage(assistantId, threadId, content)`: the stream reader calls
        `calls`, then `streamChat` throws `thrown` if it is present; `reload`
        is the outcome of the `loadMessages` that `done` starts. */
    method SendMessage(threadId: int, content: string, now: int, stamp: string,
                       calls: seq<Callback>, thrown: Option<string>, reload: Fetched<seq<Message>>)
      modifies this
      ensures Snapshot() == AfterSend(old(Snapshot()), threadId, content, now, stamp, calls, thrown, reload)
    {
      ghost var start := Begin(Snapshot(), threadId, content, now, stamp);
      streaming, error := true, None;
      messages := messages + [Optimistic(threadId, content, now, stamp)];
      var buffer := "";
      var i := 0;
      while i < |calls|
        invariant 0 <= i <= |calls|
        invariant Progress(Snapshot(), buffer) == Deliver(Progress(start, ""), threadId, stamp, calls[..i], reload)
      {
        assert calls[..i + 1][..i] == calls[..i];
        match calls[i] {
          case OnToken(t) => buffer := TokenArrived(threadId, stamp, buffer, t);
          case OnCompleted =>
          case OnDone => LoadMessages(reload);
          case OnError(m) => error := Some(m);
        }
        i := i + 1;
      }
      assert calls[..i] == calls;
      if thrown.Some? {
        error := thrown;
      }
      streaming := false;
    }
  }
}
