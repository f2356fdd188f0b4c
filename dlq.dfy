// The dead-letter queue: the `failed_chunks` table keyed by chunk id.  The
// table is a sequence of rows in insertion order with distinct ids; the
// clock is a parameter and the retry processor is an oracle.
module DeadLetter {
  import opened TextUtil
  import opened JsonValue

  const ErrorLimit: nat := 500
  const Pending: string := "pending"
  const Resolved: string := "resolved"

  /** One row of `failed_chunks`. */
  datatype Row = Row(
    id: string,
    phase: int,
    chunkText: string,
    errorMsg: string,
    retryCount: int,
    status: string,
    createdAt: string,
    updatedAt: string)

  /** One dict of get_all: {"id", "phase", "text", "error", "retries"}. */
  datatype Item = Item(id: string, phase: int, text: string, error: string, retries: int)

  /** One call of the retry processor: it raised, or returned a dict or None. */
  datatype Reply = Raised | Returned(result: Option<Obj>)

  predicate UniqueIds(rows: seq<Row>)
  {
    forall i, j :: 0 <= i < j < |rows| ==> rows[i].id != rows[j].id
  }

  /** The rows whose id is not `id`, in order. */
  function Without(rows: seq<Row>, id: string): (r: seq<Row>)
    ensures forall k :: 0 <= k < |r| ==> r[k].id != id && r[k] in rows
    ensures forall k :: 0 <= k < |rows| && rows[k].id != id ==> rows[k] in r
    ensures |r| <= |rows|
  {
    if rows == [] then []
    else (if rows[0].id == id then [] else [rows[0]]) + Without(rows[1..], id)
  }

  /** INSERT OR REPLACE: the old row for the id goes, the new one comes last. */
  function PushRows(rows: seq<Row>, chunkId: string, chunkText: string, errorMsg: string, phase: int, now: string)
    : seq<Row>
  {
    Without(rows, chunkId) + [Row(chunkId, phase, chunkText, Prefix(errorMsg, ErrorLimit), 0, Pending, now, now)]
  }

  function Resolve(r: Row, now: string): Row
  {
    r.(status := Resolved, updatedAt := now)
  }

  /** UPDATE ... SET status='resolved', updated_at=? WHERE id=? */
  function ResolveRows(rows: seq<Row>, id: string, now: string): (r: seq<Row>)
    ensures |r| == |rows|
    ensures forall k :: 0 <= k < |rows| ==> r[k] == (if rows[k].id == id then Resolve(rows[k], now) else rows[k])
  {
    if rows == [] then []
    else [if rows[0].id == id then Resolve(rows[0], now) else rows[0]] + ResolveRows(rows[1..], id, now)
  }

  function ItemOf(r: Row): Item
  {
    Item(r.id, r.phase, r.chunkText, r.errorMsg, r.retryCount)
  }

  /** SELECT ... WHERE status = ?, in table order. */
  function Select(rows: seq<Row>, status: string): (items: seq<Item>)
    ensures |items| <= |rows|
  {
    if rows == [] then []
    else (if rows[0].status == status then [ItemOf(rows[0])] else []) + Select(rows[1..], status)
  }

  /** Every selected item comes from a row with that status. */
  lemma {:induction false} SelectFrom(rows: seq<Row>, status: string, k: nat)
    requires k < |Select(rows, status)|
    ensures exists j :: 0 <= j < |rows| && rows[j].status == status && Select(rows, status)[k] == ItemOf(rows[j])
  {
    var head := if rows[0].status == status then [ItemOf(rows[0])] else [];
    if k < |head| {
      assert Select(rows, status)[k] == ItemOf(rows[0]);
    } else {
      SelectFrom(rows[1..], status, k - |head|);
      var j :| 0 <= j < |rows[1..]| && rows[1..][j].status == status &&
               Select(rows[1..], status)[k - |head|] == ItemOf(rows[1..][j]);
      assert rows[j + 1] == rows[1..][j];
    }
  }

  /** Every row with that status is selected. */
  lemma {:induction false} SelectHas(rows: seq<Row>, status: string, j: nat)
    requires j < |rows| && rows[j].status == status
    ensures ItemOf(rows[j]) in Select(rows, status)
  {
    if j > 0 {
      SelectHas(rows[1..], status, j - 1);
      assert rows[1..][j - 1] == rows[j];
    }
  }

  /** get_all(status) returns exactly the rows with that status. */
  lemma SelectExact(rows: seq<Row>, status: string, j: nat)
    requires UniqueIds(rows) && j < |rows|
    ensures ItemOf(rows[j]) in Select(rows, status) <==> rows[j].status == status
  {
    if rows[j].status == status {
      SelectHas(rows, status, j);
    } else if ItemOf(rows[j]) in Select(rows, status) {
      var k :| 0 <= k < |Select(rows, status)| && Select(rows, status)[k] == ItemOf(rows[j]);
      SelectFrom(rows, status, k);
    }
  }

  /** The selected items of a table with distinct ids have distinct ids. */
  lemma {:induction false} SelectUnique(rows: seq<Row>, status: string)
    requires UniqueIds(rows)
    ensures forall k, l :: 0 <= k < l < |Select(rows, status)| ==> Select(rows, status)[k].id != Select(rows, status)[l].id
  {
    if rows != [] {
      SelectUnique(rows[1..], status);
      forall k | 0 <= k < |Select(rows[1..], status)|
        ensures Select(rows[1..], status)[k].id != rows[0].id
      {
        SelectFrom(rows[1..], status, k);
      }
    }
  }

  /** A pushed chunk is pending, once, with its truncated error. */
  lemma PushIsPending(rows: seq<Row>, chunkId: string, chunkText: string, errorMsg: string, phase: int, now: string)
    requires UniqueIds(rows)
    ensures UniqueIds(PushRows(rows, chunkId, chunkText, errorMsg, phase, now))
    ensures Item(chunkId, phase, chunkText, Prefix(errorMsg, ErrorLimit), 0)
            in Select(PushRows(rows, chunkId, chunkText, errorMsg, phase, now), Pending)
    ensures |Prefix(errorMsg, ErrorLimit)| <= ErrorLimit
  {
    var r := PushRows(rows, chunkId, chunkText, errorMsg, phase, now);
    var w := Without(rows, chunkId);
    WithoutUnique(rows, chunkId);
    forall i, j | 0 <= i < j < |r| ensures r[i].id != r[j].id
    {
      if j == |w| { assert r[i] == w[i]; } else { assert r[i] == w[i] && r[j] == w[j]; }
    }
    SelectHas(r, Pending, |r| - 1);
  }

  /** Dropping an id keeps the ids distinct. */
  lemma {:induction false} WithoutUnique(rows: seq<Row>, id: string)
    requires UniqueIds(rows)
    ensures UniqueIds(Without(rows, id))
  {
    if rows != [] {
      TailUnique(rows);
      WithoutUnique(rows[1..], id);
      var t := Without(rows[1..], id);
      forall k | 0 <= k < |t| ensures t[k].id != rows[0].id
      {
        var a :| 0 <= a < |rows[1..]| && rows[1..][a] == t[k];
        assert rows[a + 1] == t[k];
      }
      if rows[0].id != id {
        assert Without(rows, id) == [rows[0]] + t;
        ConsUnique(rows[0], t);
      } else {
        assert Without(rows, id) == [] + t;
      }
    }
  }

  lemma {:induction false} TailUnique(rows: seq<Row>)
    requires UniqueIds(rows) && rows != []
    ensures UniqueIds(rows[1..])
  {
    forall i, j | 0 <= i < j < |rows[1..]| ensures rows[1..][i].id != rows[1..][j].id {
      assert rows[1..][i] == rows[i + 1] && rows[1..][j] == rows[j + 1];
    }
  }

  /** A row whose id is new in front of rows with distinct ids. */
  lemma {:induction false} ConsUnique(r: Row, t: seq<Row>)
    requires UniqueIds(t) && forall k :: 0 <= k < |t| ==> t[k].id != r.id
    ensures UniqueIds([r] + t)
  {
    var w := [r] + t;
    forall i, j | 0 <= i < j < |w| ensures w[i].id != w[j].id
    {
      assert w[j] == t[j - 1];
      if i > 0 { assert w[i] == t[i - 1]; }
    }
  }

  /** After mark_resolved, get_all("pending") no longer lists the id. */
  lemma ResolvedNotPending(rows: seq<Row>, id: string, now: string)
    requires UniqueIds(rows)
    ensures forall x :: x in Select(ResolveRows(rows, id, now), Pending) ==> x.id != id
  {
    var r := ResolveRows(rows, id, now);
    forall x | x in Select(r, Pending) ensures x.id != id
    {
      var k :| 0 <= k < |Select(r, Pending)| && Select(r, Pending)[k] == x;
      SelectFrom(r, Pending, k);
    }
  }

  /** An unknown id leaves the table as it was. */
  lemma ResolveUnknown(rows: seq<Row>, id: string, now: string)
    requires forall k :: 0 <= k < |rows| ==> rows[k].id != id
    ensures ResolveRows(rows, id, now) == rows
  {
  }

  /** `result and "error" not in result` */
  predicate Accepted(reply: Reply)
  {
    reply.Returned? && reply.result.Some? && reply.result.value != [] && Get(reply.result.value, "error").None?
  }

  /** Some attempt below `attempts` is accepted. */
  predicate Recovers(replies: nat -> Reply, attempts: int)
    decreases if attempts < 0 then 0 else attempts
  {
    attempts > 0 && (Recovers(replies, attempts - 1) || Accepted(replies(attempts - 1)))
  }

  lemma {:induction false} RecoversWitness(replies: nat -> Reply, attempts: int)
    ensures Recovers(replies, attempts) <==> exists a: nat :: a < attempts && Accepted(replies(a))
    decreases if attempts < 0 then 0 else attempts
  {
    if attempts > 0 {
      RecoversWitness(replies, attempts - 1);
    }
  }

  /** How many of the items recover within `attempts` calls each. */
  function CountRecovered(items: seq<Item>, processor: string -> nat -> Reply, attempts: int): (n: nat)
    ensures n <= |items|
  {
    if items == [] then 0
    else CountRecovered(items[..|items| - 1], processor, attempts) +
         (if Recovers(processor(items[|items| - 1].id), attempts) then 1 else 0)
  }

  lemma CountRecoveredSnoc(items: seq<Item>, x: Item, processor: string -> nat -> Reply, attempts: int)
    ensures CountRecovered(items + [x], processor, attempts) ==
            CountRecovered(items, processor, attempts) + (if Recovers(processor(x.id), attempts) then 1 else 0)
  {
    assert (items + [x])[..|items|] == items;
  }

  /** The recovered counter after the first k items. */
  function RecoveredUpTo(items: seq<Item>, k: nat, processor: string -> nat -> Reply, attempts: int): nat
    requires k <= |items|
  {
    if k == 0 then 0
    else RecoveredUpTo(items, k - 1, processor, attempts) + (if Recovers(processor(items[k - 1].id), attempts) then 1 else 0)
  }

  lemma {:induction false} RecoveredPrefix(items: seq<Item>, k: nat, processor: string -> nat -> Reply, attempts: int)
    requires k <= |items|
    ensures RecoveredUpTo(items, k, processor, attempts) == CountRecovered(items[..k], processor, attempts)
  {
    if k > 0 {
      RecoveredPrefix(items, k - 1, processor, attempts);
      assert items[..k][..k - 1] == items[..k - 1];
    }
  }

  /** The table after retry_all: each pending row that recovers is resolved. */
  function RetriedRows(rows: seq<Row>, processor: string -> nat -> Reply, attempts: int, now: string): (r: seq<Row>)
    ensures |r| == |rows|
    ensures forall j :: 0 <= j < |rows| ==>
      r[j] == if rows[j].status == Pending && Recovers(processor(rows[j].id), attempts) then Resolve(rows[j], now)
              else rows[j]
  {
    if rows == [] then []
    else [if rows[0].status == Pending && Recovers(processor(rows[0].id), attempts) then Resolve(rows[0], now)
          else rows[0]] + RetriedRows(rows[1..], processor, attempts, now)
  }

  /** retry_all deletes no row and never changes an id, a text or a retry count. */
  lemma RetryKeepsRows(rows: seq<Row>, processor: string -> nat -> Reply, attempts: int, now: string)
    ensures forall j :: 0 <= j < |rows| ==>
      RetriedRows(rows, processor, attempts, now)[j].id == rows[j].id &&
      RetriedRows(rows, processor, attempts, now)[j].chunkText == rows[j].chunkText &&
      RetriedRows(rows, processor, attempts, now)[j].retryCount == rows[j].retryCount
    ensures attempts <= 0 ==> RetriedRows(rows, processor, attempts, now) == rows
  {
    var r := RetriedRows(rows, processor, attempts, now);
    forall j | 0 <= j < |rows|
      ensures r[j].id == rows[j].id && r[j].chunkText == rows[j].chunkText && r[j].retryCount == rows[j].retryCount
      ensures attempts <= 0 ==> r[j] == rows[j]
    {
      assert r[j] == (if rows[j].status == Pending && Recovers(processor(rows[j].id), attempts)
                      then Resolve(rows[j], now) else rows[j]);
    }
  }

  /** summary(): a count per status.  The entries are listed here in order
      of first appearance; SQLite does not specify the order of GROUP BY
      rows, so that order is not part of what the model promises. */
  function Tally(rows: seq<Row>): (t: seq<(string, nat)>)
    decreases |rows|
  {
    if rows == [] then [] else Bump(Tally(rows[..|rows| - 1]), rows[|rows| - 1].status)
  }

  function Bump(t: seq<(string, nat)>, status: string): (r: seq<(string, nat)>)
    ensures |r| == |t| || |r| == |t| + 1
  {
    if t == [] then [(status, 1)]
    else if t[0].0 == status then [(status, t[0].1 + 1)] + t[1..]
    else [t[0]] + Bump(t[1..], status)
  }

  function SumCounts(t: seq<(string, nat)>): nat
  {
    if t == [] then 0 else t[0].1 + SumCounts(t[1..])
  }

  function CountStatus(rows: seq<Row>, status: string): nat
  {
    if rows == [] then 0
    else CountStatus(rows[..|rows| - 1], status) + (if rows[|rows| - 1].status == status then 1 else 0)
  }

  function CountOf(t: seq<(string, nat)>, status: string): nat
  {
    if t == [] then 0 else if t[0].0 == status then t[0].1 else CountOf(t[1..], status)
  }

  lemma {:induction false} BumpSum(t: seq<(string, nat)>, status: string)
    ensures SumCounts(Bump(t, status)) == SumCounts(t) + 1
  {
    if t != [] && t[0].0 != status {
      BumpSum(t[1..], status);
    }
  }

  lemma {:induction false} BumpCount(t: seq<(string, nat)>, status: string, s: string)
    ensures CountOf(Bump(t, status), s) == CountOf(t, s) + (if s == status then 1 else 0)
  {
    if t != [] && t[0].0 != status {
      BumpCount(t[1..], status, s);
    }
  }

  /** The per-status counts sum to the number of rows. */
  lemma {:induction false} TallySum(rows: seq<Row>)
    ensures SumCounts(Tally(rows)) == |rows|
    decreases |rows|
  {
    if rows != [] {
      TallySum(rows[..|rows| - 1]);
      BumpSum(Tally(rows[..|rows| - 1]), rows[|rows| - 1].status);
    }
  }

  /** Each status is counted exactly (absent statuses read as 0). */
  lemma {:induction false} TallyCount(rows: seq<Row>, status: string)
    ensures CountOf(Tally(rows), status) == CountStatus(rows, status)
    decreases |rows|
  {
    if rows != [] {
      TallyCount(rows[..|rows| - 1], status);
      BumpCount(Tally(rows[..|rows| - 1]), rows[|rows| - 1].status, status);
    }
  }

  /** The DLQ object over its table. */
  class Queue {
    var rows: seq<Row>

    predicate Valid()
      reads this
    {
      UniqueIds(rows)
    }

    /** Connecting to an existing database file keeps its rows. */
    constructor(table: seq<Row>)
      requires UniqueIds(table)
      ensures rows == table && Valid()
    {
      rows := table;
    }

    method Push(chunkId: string, chunkText: string, errorMsg: string, phase: int, now: string)
      requires Valid()
      modifies this
      ensures rows == PushRows(old(rows), chunkId, chunkText, errorMsg, phase, now)
      ensures Valid()
    {
      PushIsPending(rows, chunkId, chunkText, errorMsg, phase, now);
      rows := PushRows(rows, chunkId, chunkText, errorMsg, phase, now);
    }

    function GetAll(status: string): (items: seq<Item>)
      reads this
      ensures |items| <= |rows|
    {
      Select(rows, status)
    }

    method MarkResolved(chunkId: string, now: string)
      requires Valid()
      modifies this
      ensures rows == ResolveRows(old(rows), chunkId, now)
      ensures Valid()
    {
      rows := ResolveRows(rows, chunkId, now);
    }

    /** Tries one pending item up to `maxRetries` times; `replies(a)` is the
        a-th call's outcome. */
    method TryItem(replies: nat -> Reply, maxRetries: int) returns (ok: bool, calls: nat)
      ensures ok <==> Recovers(replies, maxRetries)
      ensures calls <= (if maxRetries < 0 then 0 else maxRetries)
    {
      ok := false;
      calls := 0;
      var attempt := 0;
      while attempt < maxRetries && !ok
        invariant 0 <= attempt && (maxRetries >= 0 ==> attempt <= maxRetries)
        invariant maxRetries < 0 ==> attempt == 0
        invariant calls == attempt
        invariant ok <==> Recovers(replies, attempt)
        decreases maxRetries - attempt
      {
        calls := calls + 1;
        if Accepted(replies(attempt)) {
          ok := true;
        }
        attempt := attempt + 1;
      }
      if ok {
        RecoversMonotone(replies, attempt, maxRetries);
      }
    }

    /** retry_all: every pending row (as listed at the start) is tried; the
        ones that recover are resolved.  `processor(id)(a)` is the a-th
        call's outcome for that chunk. */
    method RetryAll(processor: string -> nat -> Reply, maxRetries: int, now: string)
      returns (recovered: nat, calls: nat)
      requires Valid()
      modifies this
      ensures rows == RetriedRows(old(rows), processor, maxRetries, now)
      ensures recovered == CountRecovered(Select(old(rows), Pending), processor, maxRetries)
      ensures calls <= |Select(old(rows), Pending)| * (if maxRetries < 0 then 0 else maxRetries)
      ensures Valid()
    {
      var pending := GetAll(Pending);
      ghost var rows0 := rows;
      var budget := if maxRetries < 0 then 0 else maxRetries;
      recovered := 0;
      calls := 0;
      var k := 0;
      PartialRetryNone(rows0, processor, maxRetries, now);
      while k < |pending|
        invariant k <= |pending|
        invariant RetryProgress(rows, rows0, pending, k, recovered, calls, processor, maxRetries, now)
      {
        recovered, calls := RetryItem(rows0, pending, k, processor, maxRetries, now, recovered, calls);
        k := k + 1;
      }
      assert pending[..k] == pending;
      CallBoundMul(k, budget);
      RecoveredPrefix(pending, k, processor, maxRetries);
      RetryDone(rows0, processor, maxRetries, now);
      RetriedUnique(rows0, processor, maxRetries, now);
    }

    /** What retry_all has done once the first `k` pending items are tried. */
    static predicate RetryProgress(rows: seq<Row>, rows0: seq<Row>, pending: seq<Item>, k: nat, recovered: nat, calls: nat,
                            processor: string -> nat -> Reply, maxRetries: int, now: string)
    {
      && UniqueIds(rows0) && pending == Select(rows0, Pending) && k <= |pending|
      && rows == PartialRetry(rows0, IdsUpTo(pending, k), processor, maxRetries, now)
      && recovered == RecoveredUpTo(pending, k, processor, maxRetries)
      && calls <= CallBound(k, if maxRetries < 0 then 0 else maxRetries)
    }

    /** One pass of the outer loop of retry_all, over the k-th pending item. */
    method RetryItem(ghost rows0: seq<Row>, pending: seq<Item>, k: nat, processor: string -> nat -> Reply,
                     maxRetries: int, now: string, recovered0: nat, calls0: nat)
      returns (recovered: nat, calls: nat)
      requires k < |pending|
      requires RetryProgress(rows, rows0, pending, k, recovered0, calls0, processor, maxRetries, now)
      modifies this
      ensures RetryProgress(rows, rows0, pending, k + 1, recovered, calls, processor, maxRetries, now)
    {
      var item := pending[k];
      SelectUnique(rows0, Pending);
      PartialUnique(rows0, IdsUpTo(pending, k), processor, maxRetries, now);
      var ok, n := TryItem(processor(item.id), maxRetries);
      RetryStep(rows0, pending, k, processor, maxRetries, now);
      calls := calls0 + n;
      recovered := recovered0 + (if ok then 1 else 0);
      if ok {
        MarkResolved(item.id, now);
      }
    }

    function Summary(): (counts: seq<(string, nat)>)
      reads this
      ensures SumCounts(counts) == |rows|
    {
      TallySum(rows);
      Tally(rows)
    }
  }

  /** The ids of the first `k` items, in order. */
  function IdsUpTo(items: seq<Item>, k: nat): seq<string>
    requires k <= |items|
  {
    if k == 0 then [] else IdsUpTo(items, k - 1) + [items[k - 1].id]
  }

  lemma {:induction false} IdsUpToHas(items: seq<Item>, k: nat, x: string)
    requires k <= |items|
    ensures x in IdsUpTo(items, k) <==> exists i :: 0 <= i < k && items[i].id == x
  {
    if k > 0 {
      IdsUpToHas(items, k - 1, x);
    }
  }

  /** The table once the pending rows with the listed ids have been retried. */
  function PartialRetry(rows: seq<Row>, processed: seq<string>, processor: string -> nat -> Reply, attempts: int,
                        now: string): (r: seq<Row>)
    ensures |r| == |rows|
    ensures forall j :: 0 <= j < |rows| ==>
      r[j] == if rows[j].status == Pending && Recovers(processor(rows[j].id), attempts) && rows[j].id in processed
              then Resolve(rows[j], now) else rows[j]
  {
    if rows == [] then []
    else [if rows[0].status == Pending && Recovers(processor(rows[0].id), attempts) && rows[0].id in processed
          then Resolve(rows[0], now) else rows[0]] + PartialRetry(rows[1..], processed, processor, attempts, now)
  }

  /** Retrying the k-th pending item resolves its row, and only it, when it recovers. */
  lemma RetryStep(rows: seq<Row>, pending: seq<Item>, k: nat, processor: string -> nat -> Reply, attempts: int,
                  now: string)
    requires UniqueIds(rows) && pending == Select(rows, Pending) && k < |pending|
    requires forall a, b :: 0 <= a < b < |pending| ==> pending[a].id != pending[b].id
    ensures var before := PartialRetry(rows, IdsUpTo(pending, k), processor, attempts, now);
      PartialRetry(rows, IdsUpTo(pending, k + 1), processor, attempts, now) ==
      (if Recovers(processor(pending[k].id), attempts) then ResolveRows(before, pending[k].id, now) else before)
  {
    var id := pending[k].id;
    SelectFrom(rows, Pending, k);
    var j0 :| 0 <= j0 < |rows| && rows[j0].status == Pending && pending[k] == ItemOf(rows[j0]);
    IdsUpToHas(pending, k, id);
    PartialRetryAdd(rows, IdsUpTo(pending, k), j0, processor, attempts, now);
  }

  /** Retrying one more pending row, whose id is not yet processed, resolves that row alone when it recovers. */
  lemma PartialRetryAdd(rows: seq<Row>, processed: seq<string>, j0: nat, processor: string -> nat -> Reply,
                        attempts: int, now: string)
    requires UniqueIds(rows) && j0 < |rows| && rows[j0].status == Pending && rows[j0].id !in processed
    ensures var before := PartialRetry(rows, processed, processor, attempts, now);
      PartialRetry(rows, processed + [rows[j0].id], processor, attempts, now) ==
      (if Recovers(processor(rows[j0].id), attempts) then ResolveRows(before, rows[j0].id, now) else before)
  {
    var id := rows[j0].id;
    var before := PartialRetry(rows, processed, processor, attempts, now);
    var after := PartialRetry(rows, processed + [id], processor, attempts, now);
    if Recovers(processor(id), attempts) {
      var resolved := ResolveRows(before, id, now);
      forall j | 0 <= j < |rows|
        ensures after[j] == resolved[j]
      {
        PartialRetryAddAt(rows, processed, j0, j, processor, attempts, now);
      }
    } else {
      forall j | 0 <= j < |rows|
        ensures after[j] == before[j]
      {
        PartialRetryAddAt(rows, processed, j0, j, processor, attempts, now);
      }
    }
  }

  /** PartialRetryAdd at one index: only the row with the new id can change. */
  lemma PartialRetryAddAt(rows: seq<Row>, processed: seq<string>, j0: nat, j: nat, processor: string -> nat -> Reply,
                          attempts: int, now: string)
    requires UniqueIds(rows) && j0 < |rows| && j < |rows| && rows[j0].id !in processed
    ensures var before := PartialRetry(rows, processed, processor, attempts, now);
      var after := PartialRetry(rows, processed + [rows[j0].id], processor, attempts, now);
      if j == j0 then after[j] == (if rows[j].status == Pending && Recovers(processor(rows[j].id), attempts)
                                   then Resolve(rows[j], now) else rows[j])
      else after[j] == before[j] && before[j].id != rows[j0].id
  {
    assert (rows[j].id in processed + [rows[j0].id]) == (rows[j].id in processed || rows[j].id == rows[j0].id);
    if j != j0 {
      assert rows[j].id != rows[j0].id;
    }
  }

  /** Retrying changes no id, so the ids stay distinct. */
  lemma {:induction false} PartialUnique(rows: seq<Row>, processed: seq<string>, processor: string -> nat -> Reply,
                                         attempts: int, now: string)
    requires UniqueIds(rows)
    ensures UniqueIds(PartialRetry(rows, processed, processor, attempts, now))
  {
    var r := PartialRetry(rows, processed, processor, attempts, now);
    assert forall j :: 0 <= j < |r| ==> r[j].id == rows[j].id;
  }

  lemma {:induction false} RetriedUnique(rows: seq<Row>, processor: string -> nat -> Reply, attempts: int, now: string)
    requires UniqueIds(rows)
    ensures UniqueIds(RetriedRows(rows, processor, attempts, now))
  {
    var r := RetriedRows(rows, processor, attempts, now);
    assert forall j :: 0 <= j < |r| ==> r[j].id == rows[j].id;
  }

  lemma PartialRetryNone(rows: seq<Row>, processor: string -> nat -> Reply, attempts: int, now: string)
    ensures PartialRetry(rows, [], processor, attempts, now) == rows
  {
  }

  /** At most `b` calls for each of `k` items. */
  function CallBound(k: nat, b: nat): nat
  {
    if k == 0 then 0 else CallBound(k - 1, b) + b
  }

  lemma {:induction false} CallBoundMul(k: nat, b: nat)
    ensures CallBound(k, b) == k * b
  {
    if k > 0 {
      CallBoundMul(k - 1, b);
    }
  }

  lemma RetryDone(rows: seq<Row>, processor: string -> nat -> Reply, attempts: int, now: string)
    requires UniqueIds(rows)
    ensures var pending := Select(rows, Pending);
      PartialRetry(rows, IdsUpTo(pending, |pending|), processor, attempts, now) == RetriedRows(rows, processor, attempts, now)
  {
    var pending := Select(rows, Pending);
    var ids := IdsUpTo(pending, |pending|);
    forall j | 0 <= j < |rows| && rows[j].status == Pending
      ensures rows[j].id in ids
    {
      SelectHas(rows, Pending, j);
      var k :| 0 <= k < |pending| && pending[k] == ItemOf(rows[j]);
      IdsUpToHas(pending, |pending|, rows[j].id);
    }
  }

  lemma {:induction false} RecoversMonotone(replies: nat -> Reply, n: int, m: int)
    requires n <= m && Recovers(replies, n)
    ensures Recovers(replies, m)
    decreases m - n
  {
    if n < m {
      RecoversMonotone(replies, n, m - 1);
    }
  }
}
