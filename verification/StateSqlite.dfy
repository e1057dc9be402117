// src/state-sqlite.ts: the queue and the lock of the SQLite state adapter.
//
// chat_sdk_lists is modelled as its rows grouped by key; chat_sdk_locks has the thread as primary
// key. Times are milliseconds, tokens are drawn from a counter (crypto.randomUUID is taken to be fresh).
module StateSqlite {
  import opened Wrappers

  datatype ListRow<T> = ListRow(value: T, expiresAt: Option<int>)
  type Rows<T> = map<nat, ListRow<T>>
  type Lists<T> = map<string, Rows<T>>

  function RowsOf<T>(lists: Lists<T>, key: string): Rows<T> { if key in lists then lists[key] else map[] }

  // ---------------------------------------------------------------- SQL aggregates

  predicate IsMax<T>(rows: Rows<T>, i: nat) { i in rows && forall j :: j in rows ==> j <= i }

  predicate IsMin<T>(rows: Rows<T>, i: nat) { i in rows && forall j :: j in rows ==> i <= j }

  lemma MaxExists(keys: set<nat>) returns (i: nat)
    requires keys != {}
    ensures i in keys && forall j :: j in keys ==> j <= i
  {
    var first :| first in keys;
    i := first;
    if k :| k in keys && k > first {
      assert k in keys - {first};
      i := MaxExists(keys - {first});
      assert forall j :: j in keys ==> j == first || j in keys - {first};
    }
  }

  lemma MinExists(keys: set<nat>) returns (i: nat)
    requires keys != {}
    ensures i in keys && forall j :: j in keys ==> i <= j
  {
    var first :| first in keys;
    i := first;
    if k :| k in keys && k < first {
      assert k in keys - {first};
      i := MinExists(keys - {first});
      assert forall j :: j in keys ==> j == first || j in keys - {first};
    }
  }

  // SELECT MAX(idx), null when there is no row.
  function MaxIdx<T>(rows: Rows<T>): (r: Option<nat>)
    ensures r.None? <==> rows == map[]
    ensures r.Some? ==> IsMax(rows, r.value)
  {
    if rows == map[] then None
    else
      assert exists i :: IsMax(rows, i) by { var i := MaxExists(rows.Keys); assert IsMax(rows, i); }
      var i :| IsMax(rows, i);
      Some(i)
  }

  // ORDER BY idx ASC LIMIT 1.
  function MinIdx<T>(rows: Rows<T>): (r: Option<nat>)
    ensures r.None? <==> rows == map[]
    ensures r.Some? ==> IsMin(rows, r.value)
  {
    if rows == map[] then None
    else
      assert exists i :: IsMin(rows, i) by { var i := MinExists(rows.Keys); assert IsMin(rows, i); }
      var i :| IsMin(rows, i);
      Some(i)
  }

  // ---------------------------------------------------------------- list operations on one key

  function Append<T>(rows: Rows<T>, v: T, expiresAt: Option<int>, maxLength: Option<int>): Rows<T> {
    var max := MaxIdx(rows);
    var nextIdx: nat := if max.Some? then max.value + 1 else 0;
    var inserted := rows[nextIdx := ListRow(v, expiresAt)];
    if maxLength.Some? && maxLength.value != 0 && nextIdx - maxLength.value >= 0
    then map i | i in inserted && i > nextIdx - maxLength.value :: inserted[i]
    else inserted
  }

  function Pop<T>(rows: Rows<T>): (Option<T>, Rows<T>) {
    var min := MinIdx(rows);
    if min.None? then (None, rows) else (Some(rows[min.value].value), rows - {min.value})
  }

  function Unexpired<T>(rows: Rows<T>, now: int): Rows<T> {
    map i | i in rows && !(rows[i].expiresAt.Some? && rows[i].expiresAt.value < now) :: rows[i]
  }

  // ---------------------------------------------------------------- refinement of a FIFO sequence

  // The rows of a queue hold exactly the sequence q, under consecutive indices and without expiry.
  ghost predicate Holds<T>(rows: Rows<T>, q: seq<T>) {
    exists lo: nat :: HoldsAt(rows, q, lo)
  }

  ghost predicate HoldsAt<T>(rows: Rows<T>, q: seq<T>, lo: nat) {
    && (forall i :: i in rows <==> lo <= i < lo + |q|)
    && (forall i :: lo <= i < lo + |q| ==> rows[i] == ListRow(q[i - lo], None))
  }

  function LastN<T>(q: seq<T>, n: int): seq<T> {
    if n == 0 || |q| <= n then q else if n < 0 then [] else q[|q| - n..]
  }

  // The index the next row gets: one past the last, or 0 again after a full drain.
  lemma NextIndex<T>(rows: Rows<T>, q: seq<T>) returns (lo: nat)
    requires Holds(rows, q)
    ensures HoldsAt(rows, q, lo)
    ensures MaxIdx(rows) == if q == [] then None else Some(lo + |q| - 1)
    ensures q == [] ==> lo == 0
  {
    lo :| HoldsAt(rows, q, lo);
    if q == [] {
      assert forall i :: i !in rows;
      assert rows == map[];
      lo := 0;
    } else {
      assert lo + |q| - 1 in rows;
      assert IsMax(rows, lo + |q| - 1);
    }
  }

  lemma TrimHolds<T>(rows: Rows<T>, q: seq<T>, lo: nat, cut: nat)
    requires HoldsAt(rows, q, lo) && cut <= |q|
    ensures HoldsAt(map i | i in rows && i >= lo + cut :: rows[i], q[cut..], lo + cut)
  {
  }

  lemma InsertHolds<T>(rows: Rows<T>, q: seq<T>, v: T, lo: nat, next: nat)
    requires HoldsAt(rows, q, lo) && next == lo + |q|
    ensures HoldsAt(rows[next := ListRow(v, None)], q + [v], lo)
  {
  }

  // What the trim deletes once row next has been inserted behind q.
  lemma TrimToLast<T>(inserted: Rows<T>, q: seq<T>, lo: nat, maxLength: int)
    requires HoldsAt(inserted, q, lo) && q != [] && maxLength != 0 && lo + |q| - 1 - maxLength >= 0
    ensures Holds(map i | i in inserted && i > lo + |q| - 1 - maxLength :: inserted[i], LastN(q, maxLength))
  {
    var cut := if |q| <= maxLength then 0 else if maxLength < 0 then |q| else |q| - maxLength;
    TrimHolds(inserted, q, lo, cut);
    assert LastN(q, maxLength) == q[cut..];
    assert (map i | i in inserted && i > lo + |q| - 1 - maxLength :: inserted[i])
      == map i | i in inserted && i >= lo + cut :: inserted[i];
  }

  lemma AppendRefines<T>(rows: Rows<T>, q: seq<T>, v: T, maxLength: int)
    requires Holds(rows, q)
    ensures Holds(Append(rows, v, None, Some(maxLength)), LastN(q + [v], maxLength))
  {
    var lo := NextIndex(rows, q);
    var next: nat := lo + |q|;
    InsertHolds(rows, q, v, lo, next);
    if maxLength != 0 && next - maxLength >= 0 {
      TrimToLast(rows[next := ListRow(v, None)], q + [v], lo, maxLength);
    }
  }

  lemma PopRefines<T>(rows: Rows<T>, q: seq<T>)
    requires Holds(rows, q)
    ensures Pop(rows).0 == (if q == [] then None else Some(q[0]))
    ensures Holds(Pop(rows).1, if q == [] then [] else q[1..])
  {
    var lo: nat :| HoldsAt(rows, q, lo);
    if q == [] {
      assert rows == map[];
      assert HoldsAt(rows, [], 0);
    } else {
      assert lo in rows;
      assert MinIdx(rows) == Some(lo);
      assert HoldsAt(rows - {lo}, q[1..], lo + 1);
    }
  }

  lemma SizeRefines<T>(rows: Rows<T>, q: seq<T>)
    requires Holds(rows, q)
    ensures |rows| == |q|
  {
    var lo: nat :| HoldsAt(rows, q, lo);
    RangeSize(rows.Keys, lo, lo + |q|);
    assert |rows| == |rows.Keys|;
  }

  lemma {:induction false} RangeSize(keys: set<nat>, lo: nat, hi: nat)
    requires lo <= hi && forall i :: i in keys <==> lo <= i < hi
    ensures |keys| == hi - lo
    decreases hi - lo
  {
    if lo < hi {
      RangeSize(keys - {lo}, lo + 1, hi);
      assert keys == (keys - {lo}) + {lo};
    } else {
      assert keys == {};
    }
  }

  lemma CleanupRefines<T>(rows: Rows<T>, q: seq<T>, now: int)
    requires Holds(rows, q)
    ensures Unexpired(rows, now) == rows
  {
    var lo: nat :| HoldsAt(rows, q, lo);
  }

  // A cleanup deletes exactly the rows whose expiry has passed.
  lemma CleanupExactly<T>(rows: Rows<T>, now: int, i: nat)
    ensures i in Unexpired(rows, now) <==> i in rows && (rows[i].expiresAt == None || rows[i].expiresAt.value >= now)
    ensures i in Unexpired(rows, now) ==> Unexpired(rows, now)[i] == rows[i]
  {
  }

  // ---------------------------------------------------------------- locks

  datatype LockRow = LockRow(token: nat, expiresAt: int)
  type Locks = map<string, LockRow>

  function DropExpired(locks: Locks, thread: string, now: int): Locks {
    if thread in locks && locks[thread].expiresAt < now then locks - {thread} else locks
  }

  function DropAllExpired(locks: Locks, now: int): Locks {
    map t | t in locks && !(locks[t].expiresAt < now) :: locks[t]
  }

  predicate Owns(locks: Locks, thread: string, token: nat) { thread in locks && locks[thread].token == token }

  datatype Lock = Lock(threadId: string, token: nat, expiresAt: int)

  // The token-bearing object a caller holds; extendLock updates it in place.
  class LockHandle {
    const threadId: string
    const token: nat
    var expiresAt: int

    constructor (lock: Lock)
      ensures threadId == lock.threadId && token == lock.token && expiresAt == lock.expiresAt
    {
      threadId, token, expiresAt := lock.threadId, lock.token, lock.expiresAt;
    }
  }

  // ---------------------------------------------------------------- the list table's operations

  // One await-free stretch of an operation on chat_sdk_lists: an enqueue's append, its count, a dequeue,
  // an append to any list, a cleanup.
  datatype ListOp<T> =
    | PushOp(thread: string, entry: T, maxSize: int)
    | DepthOp(thread: string)
    | DequeueOp(thread: string)
    | AppendOp(key: string, v: T, maxLength: Option<int>, ttlMs: Option<int>, now: int)
    | CleanupOp(now: int)

  datatype Answer<T> = Depth(n: nat) | Entry(e: Option<T>) | Nothing

  function Expiry(ttlMs: Option<int>, now: int): Option<int> {
    if ttlMs.Some? && ttlMs.value != 0 then Some(now + ttlMs.value) else None
  }

  function ListStep<T>(lists: Lists<T>, op: ListOp<T>): (Answer<T>, Lists<T>) {
    match op
    case PushOp(thread, entry, maxSize) =>
      (Nothing, lists[QueueKey(thread) := Append(RowsOf(lists, QueueKey(thread)), entry, None, Some(maxSize))])
    case DepthOp(thread) => (Depth(|RowsOf(lists, QueueKey(thread))|), lists)
    case DequeueOp(thread) =>
      var (e, rows) := Pop(RowsOf(lists, QueueKey(thread)));
      (Entry(e), if e.None? then lists else lists[QueueKey(thread) := rows])
    case AppendOp(key, v, maxLength, ttlMs, now) =>
      (Nothing, lists[key := Append(RowsOf(lists, key), v, Expiry(ttlMs, now), maxLength)])
    case CleanupOp(now) => (Nothing, CleanLists(lists, now))
  }

  function ListsAfter<T>(lists: Lists<T>, ops: seq<ListOp<T>>): Lists<T>
    decreases |ops|
  {
    if ops == [] then lists else ListsAfter(ListStep(lists, ops[0]).1, ops[1..])
  }

  // ---------------------------------------------------------------- the adapter

  class SqliteStateAdapter<T> {
    var lists: Lists<T>
    var locks: Locks
    var nextToken: nat

    constructor ()
      ensures lists == map[] && locks == map[] && nextToken == 0
    {
      lists, locks, nextToken := map[], map[], 0;
    }

    method AppendToList(key: string, v: T, maxLength: Option<int>, ttlMs: Option<int>, now: int)
      modifies this`lists
      ensures lists == old(lists)[key := Append(RowsOf(old(lists), key), v,
                                               Expiry(ttlMs, now), maxLength)]
    {
      var expiresAt := if ttlMs.Some? && ttlMs.value != 0 then Some(now + ttlMs.value) else None;
      var rows := RowsOf(lists, key);
      var max := MaxIdx(rows);
      var nextIdx: nat := if max.Some? then max.value + 1 else 0;
      rows := rows[nextIdx := ListRow(v, expiresAt)];
      if maxLength.Some? && maxLength.value != 0 {
        var cutoff := nextIdx - maxLength.value;
        if cutoff >= 0 {
          rows := map i | i in rows && i > cutoff :: rows[i];
        }
      }
      lists := lists[key := rows];
    }

    // The append and the count are two steps: `meanwhile` is what other calls do at the await in between.
    method Enqueue(thread: string, entry: T, maxSize: int, meanwhile: seq<ListOp<T>>) returns (depth: nat)
      modifies this`lists, this`locks
      ensures var appended := Append(RowsOf(old(lists), QueueKey(thread)), entry, None, Some(maxSize));
              lists == ListsAfter(old(lists)[QueueKey(thread) := appended], meanwhile)
      ensures depth == |RowsOf(lists, QueueKey(thread))|
    {
      AppendToList(QueueKey(thread), entry, Some(maxSize), None, 0);
      PerformAll(meanwhile);
      depth := QueueDepth(thread);
    }

    method Perform(op: ListOp<T>) returns (answer: Answer<T>)
      modifies this`lists, this`locks
      ensures (answer, lists) == ListStep(old(lists), op)
    {
      answer := Nothing;
      match op {
        case PushOp(thread, entry, maxSize) => AppendToList(QueueKey(thread), entry, Some(maxSize), None, 0);
        case DepthOp(thread) =>
          var depth := QueueDepth(thread);
          answer := Depth(depth);
        case DequeueOp(thread) =>
          var entry := Dequeue(thread);
          answer := Entry(entry);
        case AppendOp(key, v, maxLength, ttlMs, now) => AppendToList(key, v, maxLength, ttlMs, now);
        case CleanupOp(now) => Cleanup(now);
      }
    }

    method PerformAll(ops: seq<ListOp<T>>)
      modifies this`lists, this`locks
      ensures lists == ListsAfter(old(lists), ops)
    {
      ghost var end := ListsAfter(lists, ops);
      for i := 0 to |ops|
        invariant ListsAfter(lists, ops[i..]) == end
      {
        assert ops[i..][0] == ops[i] && ops[i..][1..] == ops[i + 1..];
        var _ := Perform(ops[i]);
      }
    }

    method Dequeue(thread: string) returns (entry: Option<T>)
      modifies this`lists
      ensures entry == Pop(RowsOf(old(lists), QueueKey(thread))).0
      ensures lists == if entry.None? then old(lists)
                       else old(lists)[QueueKey(thread) := Pop(RowsOf(old(lists), QueueKey(thread))).1]
    {
      var rows := RowsOf(lists, QueueKey(thread));
      var idx := MinIdx(rows);
      if idx.None? { return None; }
      entry := Some(rows[idx.value].value);
      lists := lists[QueueKey(thread) := rows - {idx.value}];
    }

    method QueueDepth(thread: string) returns (depth: nat)
      ensures depth == |RowsOf(lists, QueueKey(thread))|
    {
      depth := |RowsOf(lists, QueueKey(thread))|;
    }

    method AcquireLock(thread: string, ttlMs: int, now: int) returns (r: Option<Lock>)
      modifies this`locks, this`nextToken
      ensures nextToken == old(nextToken) + 1
      ensures (locks, r) == Acquire(old(locks), thread, old(nextToken), ttlMs, now)
    {
      var token := nextToken;
      nextToken := nextToken + 1;
      var expiresAt := now + ttlMs;
      if thread in locks && locks[thread].expiresAt < now {
        locks := locks - {thread};
      }
      if thread in locks { return None; }
      locks := locks[thread := LockRow(token, expiresAt)];
      r := Some(Lock(thread, token, expiresAt));
    }

    method ReleaseLock(lock: LockHandle)
      modifies this`locks
      ensures locks == Release(old(locks), lock.threadId, lock.token)
    {
      if lock.threadId in locks && locks[lock.threadId].token == lock.token {
        locks := locks - {lock.threadId};
      }
    }

    method ExtendLock(lock: LockHandle, ttlMs: int, now: int) returns (ok: bool)
      modifies this`locks, lock`expiresAt
      ensures (locks, ok) == Extend(old(locks), lock.threadId, lock.token, ttlMs, now)
      ensures lock.expiresAt == if ok then now + ttlMs else old(lock.expiresAt)
    {
      var newExpiry := now + ttlMs;
      ok := lock.threadId in locks && locks[lock.threadId].token == lock.token;
      if ok {
        locks := locks[lock.threadId := LockRow(lock.token, newExpiry)];
        lock.expiresAt := newExpiry;
      }
    }

    method ForceReleaseLock(thread: string)
      modifies this`locks
      ensures locks == old(locks) - {thread}
    {
      locks := locks - {thread};
    }

    method Cleanup(now: int)
      modifies this`lists, this`locks
      ensures locks == DropAllExpired(old(locks), now)
      ensures lists == CleanLists(old(lists), now)
    {
      locks := map t | t in locks && !(locks[t].expiresAt < now) :: locks[t];
      lists := map k | k in lists :: Unexpired(lists[k], now);
    }
  }

  function QueueKey(thread: string): string { "queue:" + thread }

  function CleanLists<T>(lists: Lists<T>, now: int): Lists<T> {
    map k | k in lists :: Unexpired(lists[k], now)
  }

  function Acquire(locks: Locks, thread: string, token: nat, ttlMs: int, now: int): (Locks, Option<Lock>) {
    var kept := DropExpired(locks, thread, now);
    if thread in kept then (kept, None)
    else (kept[thread := LockRow(token, now + ttlMs)], Some(Lock(thread, token, now + ttlMs)))
  }

  function Release(locks: Locks, thread: string, token: nat): Locks {
    if Owns(locks, thread, token) then locks - {thread} else locks
  }

  function Extend(locks: Locks, thread: string, token: nat, ttlMs: int, now: int): (Locks, bool) {
    if Owns(locks, thread, token) then (locks[thread := LockRow(token, now + ttlMs)], true) else (locks, false)
  }
}
