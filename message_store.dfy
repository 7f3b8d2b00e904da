/**
 * The server's database tables (`assistants`, `threads`, `messages`) as
 * sequences of rows, the `messages` table as the object the handlers change,
 * and the small vocabulary of JavaScript values the server-side modules share.
 */
module MessageStore {

  datatype Option<T> = None | Some(value: T)

  /** JavaScript truthiness of an optional string: absent and `''` are falsy. */
  predicate Truthy(v: Option<string>) {
    v.Some? && v.value != ""
  }

  /** JavaScript truthiness of an optional number: absent and `0` are falsy. */
  predicate TruthyId(v: Option<int>) {
    v.Some? && v.value != 0
  }

  /** `v || d` on an optional string. */
  function OrElse(v: Option<string>, d: string): (r: string)
    ensures Truthy(v) ==> r == v.value
    ensures !Truthy(v) ==> r == d
  {
    if Truthy(v) then v.value else d
  }

  /** The value of `Number(param)` for a route parameter: a finite number or
      one of `NaN`, `Infinity`. Finite values are modelled as integers. */
  datatype NumberValue = Finite(n: int) | NonFinite

  datatype Role = System | User | Assistant

  /** One row of `assistants`. */
  datatype AssistantRecord = AssistantRecord(
    id: int,
    openAiAssistantId: string,
    name: string,
    systemPrompt: string)

  /** One row of `threads`. */
  datatype ThreadRecord = ThreadRecord(
    id: int,
    openAiThreadId: string,
    title: string,
    assistantId: int)

  /** `SELECT ... FROM assistants WHERE id=$1`, first row. */
  function FindAssistant(rows: seq<AssistantRecord>, id: int): (r: Option<AssistantRecord>)
    ensures r.Some? ==> r.value in rows && r.value.id == id
    ensures r.None? <==> forall i :: 0 <= i < |rows| ==> rows[i].id != id
  {
    if rows == [] then None
    else if rows[0].id == id then Some(rows[0])
    else FindAssistant(rows[1..], id)
  }

  /** `SELECT ... FROM threads WHERE id=$1`, first row. */
  function FindThread(rows: seq<ThreadRecord>, id: int): (r: Option<ThreadRecord>)
    ensures r.Some? ==> r.value in rows && r.value.id == id
    ensures r.None? <==> forall i :: 0 <= i < |rows| ==> rows[i].id != id
  {
    if rows == [] then None
    else if rows[0].id == id then Some(rows[0])
    else FindThread(rows[1..], id)
  }

  /** One row of `messages`. `openaiMessageId` is SQL NULL when `None`;
      `createdAt` (milliseconds since the epoch) is `None` when the INSERT
      leaves the column to its database default. The serial `id` column is
      assigned by the database and is not part of the model. */
  datatype MessageRow = MessageRow(
    threadId: int,
    role: Role,
    content: string,
    openaiMessageId: Option<string>,
    createdAt: Option<int>)

  /** `SELECT ... WHERE thread_id = t`, in table order. */
  function OfThread(rows: seq<MessageRow>, t: int): (r: seq<MessageRow>)
    ensures |r| <= |rows|
    ensures forall i :: 0 <= i < |r| ==> r[i].threadId == t && r[i] in rows
  {
    if rows == [] then []
    else if rows[0].threadId == t then [rows[0]] + OfThread(rows[1..], t)
    else OfThread(rows[1..], t)
  }

  /** What `DELETE FROM messages WHERE thread_id = t` leaves, in table order. */
  function WithoutThread(rows: seq<MessageRow>, t: int): (r: seq<MessageRow>)
    ensures |r| <= |rows|
    ensures forall i :: 0 <= i < |r| ==> r[i].threadId != t && r[i] in rows
  {
    if rows == [] then []
    else if rows[0].threadId != t then [rows[0]] + WithoutThread(rows[1..], t)
    else WithoutThread(rows[1..], t)
  }

  /** Filtering by thread distributes over concatenation. */
  lemma {:induction false} OfThreadAppend(a: seq<MessageRow>, b: seq<MessageRow>, t: int)
    ensures OfThread(a + b, t) == OfThread(a, t) + OfThread(b, t)
  {
    if a != [] {
      assert (a + b)[1..] == a[1..] + b;
      OfThreadAppend(a[1..], b, t);
    } else {
      assert a + b == b;
    }
  }

  /** Deleting a thread's rows distributes over concatenation. */
  lemma {:induction false} WithoutThreadAppend(a: seq<MessageRow>, b: seq<MessageRow>, t: int)
    ensures WithoutThread(a + b, t) == WithoutThread(a, t) + WithoutThread(b, t)
  {
    if a != [] {
      assert (a + b)[1..] == a[1..] + b;
      WithoutThreadAppend(a[1..], b, t);
    } else {
      assert a + b == b;
    }
  }

  predicate AllOfThread(rows: seq<MessageRow>, t: int) {
    forall i :: 0 <= i < |rows| ==> rows[i].threadId == t
  }

  /** Rows that all belong to `t` are exactly what filtering by `t` keeps and
      what deleting `t` removes. */
  lemma {:induction false} AllOfThreadFilters(rows: seq<MessageRow>, t: int)
    requires AllOfThread(rows, t)
    ensures OfThread(rows, t) == rows
    ensures WithoutThread(rows, t) == []
  {
    if rows != [] {
      AllOfThreadFilters(rows[1..], t);
    }
  }

  /** Rows that belong to no row of `t` survive deleting `t` unchanged. */
  lemma {:induction false} NoneOfThreadKept(rows: seq<MessageRow>, t: int)
    requires forall i :: 0 <= i < |rows| ==> rows[i].threadId != t
    ensures WithoutThread(rows, t) == rows
    ensures OfThread(rows, t) == []
  {
    if rows != [] {
      NoneOfThreadKept(rows[1..], t);
    }
  }

  /** Deleting thread `t` does not change what any other thread holds. */
  lemma {:induction false} WithoutThreadKeepsOthers(rows: seq<MessageRow>, t: int, u: int)
    requires u != t
    ensures OfThread(WithoutThread(rows, t), u) == OfThread(rows, u)
  {
    if rows != [] {
      WithoutThreadKeepsOthers(rows[1..], t, u);
    }
  }

  /** The table, as the server's statements change it. */
  class MessageTable {
    var rows: seq<MessageRow>

    constructor (initial: seq<MessageRow>)
      ensures rows == initial
    {
      rows := initial;
    }

    /** `DELETE FROM messages WHERE thread_id = $1`: removes every row of the
        thread (`ok`) or throws, leaving the table as it was (one statement
        is atomic). */
    method DeleteThread(t: int, ok: bool)
      modifies this
      ensures rows == if ok then WithoutThread(old(rows), t) else old(rows)
    {
      if ok {
        rows := WithoutThread(rows, t);
      }
    }

    /** An INSERT that either adds its row at the end (`ok`) or throws,
        leaving the table as it was. */
    method Insert(row: MessageRow, ok: bool)
      modifies this
      ensures rows == if ok then old(rows) + [row] else old(rows)
    {
      if ok {
        rows := rows + [row];
      }
    }
  }
}
