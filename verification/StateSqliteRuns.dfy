// Runs of the SQLite state adapter: queues as FIFO sequences, locks with one owner.
module StateSqliteRuns {
  import opened Wrappers
  import opened StateSqlite

  // ---------------------------------------------------------------- queues

  predicate IsQueueKey(key: string) { "queue:" <= key }

  // Appends to other lists, with or without TTL, and cleanups may happen in between.
  ghost predicate OtherKeys<T>(ops: seq<ListOp<T>>) {
    forall i :: 0 <= i < |ops| && ops[i].AppendOp? ==> !IsQueueKey(ops[i].key)
  }

  // The specification: one sequence per thread.
  type Queues<T> = map<string, seq<T>>

  function QueueOf<T>(qs: Queues<T>, thread: string): seq<T> { if thread in qs then qs[thread] else [] }

  function FifoStep<T>(qs: Queues<T>, op: ListOp<T>): (Answer<T>, Queues<T>) {
    match op
    case PushOp(thread, entry, maxSize) => (Nothing, qs[thread := LastN(QueueOf(qs, thread) + [entry], maxSize)])
    case DepthOp(thread) => (Depth(|QueueOf(qs, thread)|), qs)
    case DequeueOp(thread) =>
      var q := QueueOf(qs, thread);
      if q == [] then (Entry(None), qs) else (Entry(Some(q[0])), qs[thread := q[1..]])
    case AppendOp(_, _, _, _, _) => (Nothing, qs)
    case CleanupOp(_) => (Nothing, qs)
  }

  ghost predicate Refines<T(!new)>(lists: Lists<T>, qs: Queues<T>) {
    forall thread :: Holds(RowsOf(lists, QueueKey(thread)), QueueOf(qs, thread))
  }

  lemma QueueKeyInjective(s: string, t: string)
    ensures QueueKey(s) == QueueKey(t) ==> s == t
    ensures IsQueueKey(QueueKey(s))
  {
    assert QueueKey(s)[6..] == s && QueueKey(t)[6..] == t;
  }

  lemma StepRefines<T(!new)>(lists: Lists<T>, qs: Queues<T>, op: ListOp<T>)
    requires Refines(lists, qs) && (op.AppendOp? ==> !IsQueueKey(op.key))
    ensures ListStep(lists, op).0 == FifoStep(qs, op).0
    ensures Refines(ListStep(lists, op).1, FifoStep(qs, op).1)
  {
    var (a, lists') := ListStep(lists, op);
    var (b, qs') := FifoStep(qs, op);
    if op.PushOp? || op.DepthOp? || op.DequeueOp? {
      assert Holds(RowsOf(lists, QueueKey(op.thread)), QueueOf(qs, op.thread));
      if op.PushOp? {
        AppendRefines(RowsOf(lists, QueueKey(op.thread)), QueueOf(qs, op.thread), op.entry, op.maxSize);
      } else if op.DepthOp? {
        SizeRefines(RowsOf(lists, QueueKey(op.thread)), QueueOf(qs, op.thread));
      } else {
        PopRefines(RowsOf(lists, QueueKey(op.thread)), QueueOf(qs, op.thread));
      }
    }
    forall thread
      ensures Holds(RowsOf(lists', QueueKey(thread)), QueueOf(qs', thread))
    {
      assert Holds(RowsOf(lists, QueueKey(thread)), QueueOf(qs, thread));
      QueueKeyInjective(thread, thread);
      if op.PushOp? || op.DequeueOp? { QueueKeyInjective(thread, op.thread); }
      if op.CleanupOp? { CleanupRefines(RowsOf(lists, QueueKey(thread)), QueueOf(qs, thread), op.now); }
    }
  }

  function Answers<T>(lists: Lists<T>, ops: seq<ListOp<T>>): seq<Answer<T>>
    decreases |ops|
  {
    if ops == [] then [] else [ListStep(lists, ops[0]).0] + Answers(ListStep(lists, ops[0]).1, ops[1..])
  }

  function FifoAnswers<T>(qs: Queues<T>, ops: seq<ListOp<T>>): seq<Answer<T>>
    decreases |ops|
  {
    if ops == [] then [] else [FifoStep(qs, ops[0]).0] + FifoAnswers(FifoStep(qs, ops[0]).1, ops[1..])
  }

  function QueuesAfter<T>(qs: Queues<T>, ops: seq<ListOp<T>>): Queues<T>
    decreases |ops|
  {
    if ops == [] then qs else QueuesAfter(FifoStep(qs, ops[0]).1, ops[1..])
  }

  lemma {:induction false} RunRefines<T(!new)>(lists: Lists<T>, qs: Queues<T>, ops: seq<ListOp<T>>)
    requires Refines(lists, qs) && OtherKeys(ops)
    ensures Answers(lists, ops) == FifoAnswers(qs, ops) && Refines(ListsAfter(lists, ops), QueuesAfter(qs, ops))
    decreases |ops|
  {
    if ops != [] {
      StepRefines(lists, qs, ops[0]);
      assert OtherKeys(ops[1..]);
      RunRefines(ListStep(lists, ops[0]).1, FifoStep(qs, ops[0]).1, ops[1..]);
    }
  }

  lemma EmptyRefines<T(!new)>(lists: Lists<T>, qs: Queues<T>)
    requires lists == map[] && qs == map[]
    ensures Refines(lists, qs)
  {
    forall thread
      ensures Holds(RowsOf(lists, QueueKey(thread)), QueueOf(qs, thread))
    {
      var rows: Rows<T> := map[];
      assert HoldsAt(rows, [], 0);
    }
  }

  // From empty tables, in every interleaving of operations on all threads, every depth and every
  // dequeued entry is that of a FIFO queue that keeps its last maxSize entries, and each queue's rows
  // hold exactly that sequence under consecutive indices.
  lemma QueuesAreFifo<T(!new)>(ops: seq<ListOp<T>>, thread: string)
    requires OtherKeys(ops)
    ensures Answers(map[], ops) == FifoAnswers(map[], ops)
    ensures Holds(RowsOf(ListsAfter(map[], ops), QueueKey(thread)), QueueOf(QueuesAfter(map[], ops), thread))
  {
    var none: Queues<T> := map[];
    var empty: Lists<T> := map[];
    EmptyRefines(empty, none);
    RunRefines(empty, none, ops);
  }

  // The count of an enqueue is its own if nothing touches the thread's queue at the await.
  lemma {:induction false} DepthIsOwnIfUndisturbed<T>(qs: Queues<T>, thread: string, meanwhile: seq<ListOp<T>>)
    requires forall i :: 0 <= i < |meanwhile| && (meanwhile[i].PushOp? || meanwhile[i].DequeueOp?) ==>
             meanwhile[i].thread != thread
    ensures QueueOf(QueuesAfter(qs, meanwhile), thread) == QueueOf(qs, thread)
    decreases |meanwhile|
  {
    if meanwhile != [] { DepthIsOwnIfUndisturbed(FifoStep(qs, meanwhile[0]).1, thread, meanwhile[1..]); }
  }

  lemma AnswerFirst<T>(qs: Queues<T>, op: ListOp<T>, rest: seq<ListOp<T>>)
    ensures FifoAnswers(qs, [op] + rest) == [FifoStep(qs, op).0] + FifoAnswers(FifoStep(qs, op).1, rest)
  {
    assert ([op] + rest)[1..] == rest;
  }

  // Two overlapping enqueues on an empty queue both get 2.
  lemma OverlappingEnqueues<T(!new)>(thread: string, x: T, y: T, ops: seq<ListOp<T>>)
    requires ops == [PushOp(thread, x, 10)] + ([PushOp(thread, y, 10)] + ([DepthOp(thread)] + ([DepthOp(thread)] + [])))
    ensures Answers(map[], ops) == [Nothing, Nothing, Depth(2), Depth(2)]
  {
    var none: Queues<T> := map[];
    var q1: Queues<T> := FifoStep(none, PushOp(thread, x, 10)).1;
    assert [] + [x] == [x];
    assert QueueOf(q1, thread) == [x];
    var q2 := FifoStep(q1, PushOp(thread, y, 10)).1;
    assert QueueOf(q2, thread) == [x] + [y];
    AnswerFirst(none, PushOp(thread, x, 10), [PushOp(thread, y, 10)] + ([DepthOp(thread)] + ([DepthOp(thread)] + [])));
    AnswerFirst(q1, PushOp(thread, y, 10), [DepthOp(thread)] + ([DepthOp(thread)] + []));
    AnswerFirst(q2, DepthOp(thread), [DepthOp(thread)] + []);
    AnswerFirst(q2, DepthOp(thread), []);
    QueuesAreFifo(ops, thread);
  }

  // An append to any list puts its entry behind the others of the list and touches no other list. With a
  // time to live, other than none or zero, the entry outlasts exactly the cleanups up to its end.
  lemma AppendedLives<T>(lists: Lists<T>, key: string, v: T, ttlMs: Option<int>, now: int, later: int)
    returns (i: nat)
    ensures var lists' := ListStep(lists, AppendOp(key, v, None, ttlMs, now)).1;
            && key in lists' && i in lists'[key] && lists'[key][i].value == v
            && i !in RowsOf(lists, key) && (forall j :: j in RowsOf(lists, key) ==> j < i)
            && lists'[key] - {i} == RowsOf(lists, key)
            && (forall k :: k != key ==> RowsOf(lists', k) == RowsOf(lists, k))
            && var cleaned := ListStep(lists', CleanupOp(later)).1;
               && key in cleaned
               && (i in cleaned[key] <==> ttlMs == None || ttlMs == Some(0) || later <= now + ttlMs.value)
  {
    var rows := RowsOf(lists, key);
    var max := MaxIdx(rows);
    i := if max.Some? then max.value + 1 else 0;
    var lists' := ListStep(lists, AppendOp(key, v, None, ttlMs, now)).1;
    CleanupExactly(lists'[key], later, i);
  }

  // A queue's entries do not expire, and an append with a limit keeps exactly the last ones of a list.
  lemma LimitKeepsTheLast<T>(rows: Rows<T>, v: T, expiresAt: Option<int>, limit: nat, j: nat)
    requires limit > 0
    ensures var next := if rows == map[] then 0 else MaxIdx(rows).value + 1;
            var rows' := Append(rows, v, expiresAt, Some(limit));
            && next in rows' && rows'[next] == ListRow(v, expiresAt)
            && (j != next ==> (j in rows' <==> j in rows && j + limit > next) && (j in rows' ==> rows'[j] == rows[j]))
  {
  }

  // ---------------------------------------------------------------- locks

  datatype LockWorld = LockWorld(locks: Locks, nextToken: nat, now: int)

  datatype LockOp =
    | AcquireOp(thread: string, ttlMs: int)
    | ReleaseOp(thread: string, token: nat)
    | ExtendOp(thread: string, token: nat, ttlMs: int)
    | ForceReleaseOp(thread: string)
    | CleanOp
    | AdvanceOp(ms: nat)

  function LockNext(w: LockWorld, op: LockOp): LockWorld {
    match op
    case AcquireOp(thread, ttl) =>
      LockWorld(Acquire(w.locks, thread, w.nextToken, ttl, w.now).0, w.nextToken + 1, w.now)
    case ReleaseOp(thread, token) => w.(locks := Release(w.locks, thread, token))
    case ExtendOp(thread, token, ttl) => w.(locks := Extend(w.locks, thread, token, ttl, w.now).0)
    case ForceReleaseOp(thread) => w.(locks := w.locks - {thread})
    case CleanOp => w.(locks := DropAllExpired(w.locks, w.now))
    case AdvanceOp(ms) => w.(now := w.now + ms)
  }

  function LockRun(w: LockWorld, ops: seq<LockOp>): LockWorld
    decreases |ops|
  {
    if ops == [] then w else LockRun(LockNext(w, ops[0]), ops[1..])
  }

  ghost predicate TokensIssued(w: LockWorld) {
    forall t :: t in w.locks ==> w.locks[t].token < w.nextToken
  }

  // How an owner can lose its lock in one step, and how its expiry can change.
  lemma LosesExactlyWhen(w: LockWorld, op: LockOp, thread: string, token: nat)
    requires TokensIssued(w) && Owns(w.locks, thread, token)
    ensures TokensIssued(LockNext(w, op))
    ensures !Owns(LockNext(w, op).locks, thread, token)
            <==> op == ReleaseOp(thread, token) || op == ForceReleaseOp(thread)
                 || ((op == CleanOp || (op.AcquireOp? && op.thread == thread)) && w.locks[thread].expiresAt < w.now)
    ensures Owns(LockNext(w, op).locks, thread, token) && !(op.ExtendOp? && op.thread == thread && op.token == token)
            ==> LockNext(w, op).locks[thread] == w.locks[thread]
  {
  }

  lemma LostStep(w: LockWorld, op: LockOp, thread: string, token: nat)
    requires TokensIssued(w) && token < w.nextToken && !Owns(w.locks, thread, token)
    ensures var w' := LockNext(w, op);
            TokensIssued(w') && token < w'.nextToken && !Owns(w'.locks, thread, token)
  {
  }

  // A token that lost its lock never gets it back, and from then on neither releases nor extends
  // whatever lock its successor holds.
  lemma {:induction false} LostForGood(w: LockWorld, ops: seq<LockOp>, thread: string, token: nat)
    requires TokensIssued(w) && token < w.nextToken && !Owns(w.locks, thread, token)
    ensures var w' := LockRun(w, ops);
            && !Owns(w'.locks, thread, token)
            && Release(w'.locks, thread, token) == w'.locks
            && forall ttl :: Extend(w'.locks, thread, token, ttl, w'.now) == (w'.locks, false)
    decreases |ops|
  {
    if ops != [] {
      LostStep(w, ops[0], thread, token);
      LostForGood(LockNext(w, ops[0]), ops[1..], thread, token);
    }
  }

  // Nobody releases the lock with this token or by force.
  ghost predicate Unreleased(ops: seq<LockOp>, thread: string, token: nat) {
    forall i :: 0 <= i < |ops| ==> ops[i] != ReleaseOp(thread, token) && ops[i] != ForceReleaseOp(thread)
  }

  // At no point of the run is the clock past the expiry the lock has then.
  ghost predicate InTime(w: LockWorld, ops: seq<LockOp>, thread: string)
    decreases |ops|
  {
    (thread in w.locks ==> w.now <= w.locks[thread].expiresAt)
      && (ops != [] ==> InTime(LockNext(w, ops[0]), ops[1..], thread))
  }

  // Mutual exclusion: until its current expiry, release, or force-release, the owner keeps the lock,
  // however often it extends it and whatever the others do, so every other acquire of the thread fails.
  lemma {:induction false} OwnerKeepsLock(w: LockWorld, ops: seq<LockOp>, thread: string, token: nat)
    requires TokensIssued(w) && Owns(w.locks, thread, token) && Unreleased(ops, thread, token) && InTime(w, ops, thread)
    ensures var w' := LockRun(w, ops);
            && Owns(w'.locks, thread, token)
            && forall ttl :: Acquire(w'.locks, thread, w'.nextToken, ttl, w'.now).1 == None
    decreases |ops|
  {
    if ops != [] {
      LosesExactlyWhen(w, ops[0], thread, token);
      assert ops[0] != ReleaseOp(thread, token) && ops[0] != ForceReleaseOp(thread);
      assert Unreleased(ops[1..], thread, token);
      OwnerKeepsLock(LockNext(w, ops[0]), ops[1..], thread, token);
    }
  }

  ghost predicate Undisturbed(ops: seq<LockOp>, thread: string, token: nat) {
    Unreleased(ops, thread, token)
    && forall i :: 0 <= i < |ops| ==> !(ops[i].ExtendOp? && ops[i].thread == thread && ops[i].token == token)
  }

  lemma {:induction false} ClockOnlyAdvances(w: LockWorld, ops: seq<LockOp>)
    ensures LockRun(w, ops).now >= w.now
    decreases |ops|
  {
    if ops != [] { ClockOnlyAdvances(LockNext(w, ops[0]), ops[1..]); }
  }

  // Without an extension the lock row stays as it is up to its expiry.
  lemma {:induction false} UnextendedLockStays(w: LockWorld, ops: seq<LockOp>, thread: string, token: nat)
    requires TokensIssued(w) && Owns(w.locks, thread, token) && Undisturbed(ops, thread, token)
    requires LockRun(w, ops).now <= w.locks[thread].expiresAt
    ensures InTime(w, ops, thread) && thread in LockRun(w, ops).locks
    ensures LockRun(w, ops).locks[thread] == w.locks[thread]
    decreases |ops|
  {
    ClockOnlyAdvances(w, ops);
    if ops != [] {
      LosesExactlyWhen(w, ops[0], thread, token);
      assert ops[0] != ReleaseOp(thread, token) && ops[0] != ForceReleaseOp(thread);
      assert Undisturbed(ops[1..], thread, token);
      UnextendedLockStays(LockNext(w, ops[0]), ops[1..], thread, token);
    }
  }

  // A free or expired lock is obtained, until ttlMs from now and with a token nobody held before; a lock
  // that is held and not expired is refused, also at the very instant of its expiry.
  lemma AcquireSucceedsExactlyWhen(w: LockWorld, thread: string, ttlMs: int)
    requires TokensIssued(w)
    ensures var (locks', r) := Acquire(w.locks, thread, w.nextToken, ttlMs, w.now);
            && (r.Some? <==> thread !in w.locks || w.locks[thread].expiresAt < w.now)
            && (r.Some? ==> Owns(locks', thread, r.value.token) && forall t :: !Owns(w.locks, t, r.value.token))
            && (r.Some? ==> r.value == Lock(thread, w.nextToken, w.now + ttlMs)
                            && thread in locks' && locks'[thread] == LockRow(w.nextToken, w.now + ttlMs))
            && (r.None? ==> locks' == w.locks)
            && (forall t :: t != thread ==>
                (t in locks' <==> t in w.locks) && (t in locks' ==> locks'[t] == w.locks[t]))
  {
  }

  // Only the owner's token extends a lock, and it then expires ttlMs from now, in the table as in the object.
  lemma ExtendsExactlyWhen(w: LockWorld, thread: string, token: nat, ttlMs: int)
    ensures var (locks', ok) := Extend(w.locks, thread, token, ttlMs, w.now);
            && (ok <==> thread in w.locks && w.locks[thread].token == token)
            && locks' == if ok then w.locks[thread := LockRow(token, w.now + ttlMs)] else w.locks
  {
  }

  // Only the owner's token releases a lock.
  lemma ReleasesExactlyWhen(w: LockWorld, thread: string, token: nat)
    ensures Release(w.locks, thread, token)
            == if thread in w.locks && w.locks[thread].token == token then w.locks - {thread} else w.locks
  {
  }

  // From a successful acquire at time t, unless its owner releases or extends the lock or it is released
  // by force, every acquire of the thread fails up to and including t + ttlMs.
  lemma AcquiredIsExclusive(w: LockWorld, thread: string, ttlMs: int, ops: seq<LockOp>, w': LockWorld, other: int)
    requires TokensIssued(w) && Acquire(w.locks, thread, w.nextToken, ttlMs, w.now).1.Some?
    requires Undisturbed(ops, thread, w.nextToken) && w' == LockRun(LockNext(w, AcquireOp(thread, ttlMs)), ops)
    requires w'.now <= w.now + ttlMs
    ensures Acquire(w'.locks, thread, w'.nextToken, other, w'.now).1 == None
  {
    var held := LockNext(w, AcquireOp(thread, ttlMs));
    AcquireSucceedsExactlyWhen(w, thread, ttlMs);
    UnextendedLockStays(held, ops, thread, w.nextToken);
  }

  // The owner extends the lock at time u: then the bound is u + ttlMs.
  lemma ExtendedIsExclusive(w: LockWorld, thread: string, token: nat, ttlMs: int, ops: seq<LockOp>, w': LockWorld,
                            other: int)
    requires TokensIssued(w) && Extend(w.locks, thread, token, ttlMs, w.now).1
    requires Undisturbed(ops, thread, token) && w' == LockRun(LockNext(w, ExtendOp(thread, token, ttlMs)), ops)
    requires w'.now <= w.now + ttlMs
    ensures Acquire(w'.locks, thread, w'.nextToken, other, w'.now).1 == None
  {
    ExtendsExactlyWhen(w, thread, token, ttlMs);
    UnextendedLockStays(LockNext(w, ExtendOp(thread, token, ttlMs)), ops, thread, token);
  }

  // No operation on the thread's lock by anybody.
  ghost predicate LeftAlone(ops: seq<LockOp>, thread: string) {
    forall i :: 0 <= i < |ops| ==>
      match ops[i]
      case AcquireOp(t, _) => t != thread
      case ReleaseOp(t, _) => t != thread
      case ExtendOp(t, _, _) => t != thread
      case ForceReleaseOp(t) => t != thread
      case CleanOp => true
      case AdvanceOp(_) => true
  }

  lemma {:induction false} LeftAloneStays(w: LockWorld, ops: seq<LockOp>, thread: string)
    requires LeftAlone(ops, thread)
    ensures thread in LockRun(w, ops).locks ==> thread in w.locks && LockRun(w, ops).locks[thread] == w.locks[thread]
    ensures thread in w.locks && w.locks[thread].expiresAt >= LockRun(w, ops).now ==> thread in LockRun(w, ops).locks
    decreases |ops|
  {
    if ops != [] {
      ClockOnlyAdvances(w, ops);
      assert LeftAlone(ops[1..], thread) && ops[0] == ops[0];
      assert thread in LockNext(w, ops[0]).locks ==>
        thread in w.locks && LockNext(w, ops[0]).locks[thread] == w.locks[thread];
      LeftAloneStays(LockNext(w, ops[0]), ops[1..], thread);
    }
  }

  // So the bound is exact: the next acquire of the thread succeeds if and only if it comes after t + ttlMs.
  lemma NextAcquireExactlyWhen(w: LockWorld, thread: string, ttlMs: int, ops: seq<LockOp>, w': LockWorld, other: int)
    requires TokensIssued(w) && Acquire(w.locks, thread, w.nextToken, ttlMs, w.now).1.Some?
    requires LeftAlone(ops, thread) && w' == LockRun(LockNext(w, AcquireOp(thread, ttlMs)), ops)
    ensures Acquire(w'.locks, thread, w'.nextToken, other, w'.now).1.Some? <==> w'.now > w.now + ttlMs
  {
    AcquireSucceedsExactlyWhen(w, thread, ttlMs);
    LeftAloneStays(LockNext(w, AcquireOp(thread, ttlMs)), ops, thread);
  }

  // On a fresh adapter: a lock taken for ttlMs is refused to others for that long, and free a moment later.
  lemma LockLastsItsTime(thread: string, ttlMs: nat, ms: nat, other: int, w: LockWorld)
    requires w == LockNext(LockNext(LockWorld(map[], 0, 0), AcquireOp(thread, ttlMs)), AdvanceOp(ms))
    ensures w.now == ms && (Acquire(w.locks, thread, w.nextToken, other, w.now).1.Some? <==> ms > ttlMs)
  {
  }
}
