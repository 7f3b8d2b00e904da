/**
 * `POST /api/sync/:threadId`: rebuild a thread's stored history from the
 * upstream thread. Every stored row of the thread is deleted, then one row is
 * inserted per message of the listing's first page (`messages.data`), in
 * ascending order. Later pages are never fetched, so their messages are not
 * restored.
 */
module Resync {
  import opened JsString
  import opened MessageStore

  /** The first content block of an upstream message matters only through its
      type; a text block carries its text. */
  datatype ContentBlock = TextBlock(value: string) | OtherBlock

  /** One upstream message as the listing returns it; `createdAt` is in
      seconds since the epoch. */
  datatype UpstreamMessage = UpstreamMessage(
    id: string,
    role: Role,
    content: seq<ContentBlock>,
    createdAt: int)

  /** The JSON answer: `{ synced, total, deleted: true }` or an error. */
  datatype SyncResponse =
    | Synced(synced: nat, total: nat)
    | SyncFailed(status: int, error: string)

  /** The stored content: the first block's text when that block is text,
      otherwise the empty string (also when there is no block at all). */
  function ContentOf(m: UpstreamMessage): (c: string)
    ensures |m.content| > 0 && m.content[0].TextBlock? ==> c == m.content[0].value
    ensures !(|m.content| > 0 && m.content[0].TextBlock?) ==> c == ""
  {
    if |m.content| > 0 && m.content[0].TextBlock? then m.content[0].value else ""
  }

  /** The row inserted for one upstream message; the timestamp is converted to
      milliseconds. */
  function RowOf(threadId: int, m: UpstreamMessage): (row: MessageRow)
    ensures row.threadId == threadId && row.role == m.role
    ensures row.content == ContentOf(m) && row.openaiMessageId == Some(m.id)
    ensures row.createdAt == Some(m.createdAt * 1000)
  {
    MessageRow(threadId, m.role, ContentOf(m), Some(m.id), Some(m.createdAt * 1000))
  }

  /** The rows inserted for a list of upstream messages, in list order. */
  function SyncedRows(threadId: int, ms: seq<UpstreamMessage>): (r: seq<MessageRow>)
    ensures |r| == |ms|
    ensures forall i :: 0 <= i < |ms| ==> r[i] == RowOf(threadId, ms[i])
  {
    if ms == [] then []
    else
      var n := |ms| - 1;
      SyncedRows(threadId, ms[..n]) + [RowOf(threadId, ms[n])]
  }

  /** The table after a complete resync of thread `t`. */
  function ResyncTable(rows: seq<MessageRow>, t: int, ms: seq<UpstreamMessage>): seq<MessageRow> {
    WithoutThread(rows, t) + SyncedRows(t, ms)
  }

  /** How many inserts succeed when insert number `failAt` (counting from 0)
      throws. */
  function InsertedCount(ms: seq<UpstreamMessage>, failAt: Option<nat>): (k: nat)
    ensures k <= |ms|
    ensures k < |ms| <==> failAt.Some? && failAt.value < |ms|
  {
    if failAt.Some? && failAt.value < |ms| then failAt.value else |ms|
  }

  /** The handler. `selectOk` and `deleteOk` say whether the thread lookup
      and the DELETE return or throw; `upstream` is the listing's first page,
      or `None`
      when the listing call throws; `failAt` is the insert that throws, if
      any; `failure` is the message of whatever was thrown. Every throw is
      caught and answered with 500; a listing or insert failure comes after
      the DELETE has run, so it leaves the thread with the rows inserted so
      far. */
  method ResyncThread(table: MessageTable, threadId: NumberValue, threads: seq<ThreadRecord>,
                      selectOk: bool, deleteOk: bool,
                      upstream: Option<seq<UpstreamMessage>>, failAt: Option<nat>,
                      failure: Option<string>)
    returns (resp: SyncResponse)
    modifies table
    ensures threadId.NonFinite? ==>
      resp == SyncFailed(400, "Invalid threadId") && table.rows == old(table.rows)
    ensures threadId.Finite? && !selectOk ==>
      resp == SyncFailed(500, OrElse(failure, "Failed to sync messages")) && table.rows == old(table.rows)
    ensures threadId.Finite? && selectOk && FindThread(threads, threadId.n).None? ==>
      resp == SyncFailed(404, "Thread not found") && table.rows == old(table.rows)
    ensures threadId.Finite? && selectOk && FindThread(threads, threadId.n).Some? && !deleteOk ==>
      resp == SyncFailed(500, OrElse(failure, "Failed to sync messages")) && table.rows == old(table.rows)
    ensures threadId.Finite? && selectOk && FindThread(threads, threadId.n).Some? && deleteOk && upstream.None? ==>
      resp == SyncFailed(500, OrElse(failure, "Failed to sync messages")) &&
      table.rows == WithoutThread(old(table.rows), threadId.n)
    ensures threadId.Finite? && selectOk && FindThread(threads, threadId.n).Some? && deleteOk && upstream.Some? ==>
      var ms := upstream.value;
      var k := InsertedCount(ms, failAt);
      table.rows == WithoutThread(old(table.rows), threadId.n) + SyncedRows(threadId.n, ms[..k]) &&
      resp == if k == |ms| then Synced(k, |ms|)
              else SyncFailed(500, OrElse(failure, "Failed to sync messages"))
  {
    if threadId.NonFinite? {
      return SyncFailed(400, "Invalid threadId");
    }
    var t := threadId.n;
    if !selectOk {
      return SyncFailed(500, OrElse(failure, "Failed to sync messages"));
    }
    if FindThread(threads, t).None? {
      return SyncFailed(404, "Thread not found");
    }
    table.DeleteThread(t, deleteOk);
    if !deleteOk {
      return SyncFailed(500, OrElse(failure, "Failed to sync messages"));
    }
    if upstream.None? {
      return SyncFailed(500, OrElse(failure, "Failed to sync messages"));
    }
    var ms := upstream.value;
    var synced, completed := InsertAll(table, t, ms, failAt);
    if !completed {
      return SyncFailed(500, OrElse(failure, "Failed to sync messages"));
    }
    return Synced(synced, |ms|);
  }

  /** The `for` loop of the handler: one INSERT per upstream message, counting
      the inserts that return a row, until one throws. */
  method InsertAll(table: MessageTable, t: int, ms: seq<UpstreamMessage>, failAt: Option<nat>)
    returns (synced: nat, completed: bool)
    modifies table
    ensures synced == InsertedCount(ms, failAt)
    ensures completed <==> synced == |ms|
    ensures table.rows == old(table.rows) + SyncedRows(t, ms[..synced])
  {
    synced := 0;
    var i := 0;
    while i < |ms|
      invariant 0 <= i <= |ms|
      invariant synced == i
      invariant table.rows == old(table.rows) + SyncedRows(t, ms[..i])
      invariant forall j :: 0 <= j < i ==> failAt != Some(j)
    {
      var ok := failAt != Some(i);
      table.Insert(RowOf(t, ms[i]), ok);
      if !ok {
        return synced, false;
      }
      assert ms[..i + 1][..i] == ms[..i];
      assert SyncedRows(t, ms[..i + 1]) == SyncedRows(t, ms[..i]) + [RowOf(t, ms[i])];
      SeqAssoc(old(table.rows), SyncedRows(t, ms[..i]), [RowOf(t, ms[i])]);
      // INSERT ... RETURNING id yields one row whenever it does not throw.
      synced := synced + 1;
      i := i + 1;
    }
    return synced, true;
  }

  /** The synced rows of a prefix of the listing are a prefix of the synced rows. */
  lemma {:induction false} SyncedRowsPrefix(t: int, ms: seq<UpstreamMessage>, k: nat)
    requires k <= |ms|
    ensures SyncedRows(t, ms[..k]) == SyncedRows(t, ms)[..k]
  {
  }

  /** Every synced row belongs to the thread being synced. */
  lemma SyncedRowsOfThread(t: int, ms: seq<UpstreamMessage>)
    ensures AllOfThread(SyncedRows(t, ms), t)
  {
  }

  /** After a resync the thread's history, as `GET /api/messages` filters it,
      is exactly one row per upstream message, in upstream order. */
  lemma ResyncThreadHistory(rows: seq<MessageRow>, t: int, ms: seq<UpstreamMessage>)
    ensures OfThread(ResyncTable(rows, t, ms), t) == SyncedRows(t, ms)
  {
    OfThreadAppend(WithoutThread(rows, t), SyncedRows(t, ms), t);
    NoneOfThreadKept(WithoutThread(rows, t), t);
    SyncedRowsOfThread(t, ms);
    AllOfThreadFilters(SyncedRows(t, ms), t);
  }

  /** A resync leaves every other thread's history as it was. */
  lemma ResyncKeepsOtherThreads(rows: seq<MessageRow>, t: int, ms: seq<UpstreamMessage>, u: int)
    requires u != t
    ensures OfThread(ResyncTable(rows, t, ms), u) == OfThread(rows, u)
  {
    OfThreadAppend(WithoutThread(rows, t), SyncedRows(t, ms), u);
    WithoutThreadKeepsOthers(rows, t, u);
    SyncedRowsOfThread(t, ms);
    NoneOfThreadKept(SyncedRows(t, ms), u);
  }

  /** Resyncing twice against an unchanged upstream gives the table one
      resync gives. */
  lemma ResyncIdempotent(rows: seq<MessageRow>, t: int, ms: seq<UpstreamMessage>)
    ensures ResyncTable(ResyncTable(rows, t, ms), t, ms) == ResyncTable(rows, t, ms)
  {
    var kept := WithoutThread(rows, t);
    var synced := SyncedRows(t, ms);
    WithoutThreadAppend(kept, synced, t);
    NoneOfThreadKept(kept, t);
    SyncedRowsOfThread(t, ms);
    AllOfThreadFilters(synced, t);
    calc {
      ResyncTable(ResyncTable(rows, t, ms), t, ms);
      WithoutThread(kept + synced, t) + synced;
      (WithoutThread(kept, t) + WithoutThread(synced, t)) + synced;
      (kept + []) + synced;
      { assert kept + [] == kept; }
      kept + synced;
    }
  }

  /** A resync cut short by a failed insert leaves the thread holding the
      first rows of a complete resync, in order. */
  lemma PartialResyncIsPrefix(rows: seq<MessageRow>, t: int, ms: seq<UpstreamMessage>, k: nat)
    requires k <= |ms|
    ensures OfThread(WithoutThread(rows, t) + SyncedRows(t, ms[..k]), t) ==
            SyncedRows(t, ms)[..k]
  {
    ResyncThreadHistory(rows, t, ms[..k]);
    SyncedRowsPrefix(t, ms, k);
  }
}
