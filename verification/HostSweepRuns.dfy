// Whole runs of the sweep protocol: every interleaving of sweep phases, router wakes, container
// activity, crashes and new messages for one session. The phases of a sweep are separate steps: the sweep
// awaits the wake, and the container goes on while the host decides and stops it.
module HostSweepRuns {
  import opened Wrappers
  import opened HostSweep

  datatype Retry = Retry(at: int, backoffSec: nat)

  // How far a stuck check or a cleanup has come: it has decided on a reset, it has listed the claims.
  datatype Phase = Idle | Decided | Listed(ids: set<string>)

  // `log` is the history of resets per message; the program keeps no such record.
  datatype World = World(s: State, log: map<string, seq<Retry>>, phase: Phase)

  datatype Step =
    | Advance(ms: nat)
    | Insert(id: string, trigger: bool, processAfter: ProcessAfter)
    | ClaimRow(id: string)
    | Acknowledge(id: string, ok: bool)
    | SetTool(tool: Option<ContainerState>)
    | TouchHeartbeat
    | ClearStaleAcks
    | ContainerExit
    | RouterWake
    | SyncPhase
    | WakePhase(ok: bool)
    | JudgePhase
    | ListPhase
    | ResetPhase(deleteOk: bool)

  // getPendingMessages: a container picks up only due pending rows without an ack of any kind.
  predicate Claimable(s: State, id: string) {
    s.running && id in s.messages && id !in s.acks && Due(s.messages[id].(trigger := true), s.now)
  }

  predicate Retried(s: State, id: string) {
    id in s.messages && id in Claimed(s.acks) && Resettable(s.messages[id], s.now) && s.messages[id].tries < MAX_TRIES
  }

  // The reset phase charges message id a retry.
  predicate Charged(w: World, id: string) {
    w.phase.Listed? && id in w.phase.ids && id in w.s.messages && Resettable(w.s.messages[id], w.s.now)
      && w.s.messages[id].tries < MAX_TRIES
  }

  function Logged(w: World): map<string, seq<Retry>>
    requires w.s.messages.Keys <= w.log.Keys
  {
    map id | id in w.s.messages ::
      if Charged(w, id) then w.log[id] + [Retry(w.s.now, BackoffSec(w.s.messages[id].tries))] else w.log[id]
  }

  // The steps that leave messages_in alone.
  function QuietState(s: State, step: Step): State {
    match step
    case Advance(ms) => s.(now := s.now + ms)
    case ClaimRow(id) =>
      if Claimable(s, id) then s.(acks := s.acks[id := Ack(Processing, Some(FloorSec(s.now)))]) else s
    case Acknowledge(id, ok) =>
      if s.running then s.(acks := s.acks[id := Ack(if ok then AckCompleted else AckFailed, Some(FloorSec(s.now)))])
        else s
    case SetTool(tool) => s.(tool := tool)
    case TouchHeartbeat => if s.running then s.(heartbeat := s.now) else s
    case ClearStaleAcks => if s.running then s.(acks := WithoutOrphans(s.acks)) else s
    case ContainerExit => s.(running := false)
    case RouterWake => if s.running then s else Spawn(s)
    case WakePhase(ok) => WakeDue(s, ok)
    case _ => s
  }

  ghost function Next(w: World, step: Step): World
    requires w.s.messages.Keys <= w.log.Keys
  {
    match step
    case Insert(id, trigger, after) =>
      if id in w.s.messages then w
      else w.(s := w.s.(messages := w.s.messages[id := MessageIn(Pending, trigger, 0, after)]), log := w.log[id := []])
    case SyncPhase => w.(s := SyncAcks(w.s))
    case JudgePhase => w.(phase := if Resets(w.s) then Decided else Idle)
    case ListPhase => if w.phase.Decided? then w.(phase := Listed(Claimed(w.s.acks))) else w
    case ResetPhase(deleteOk) =>
      if w.phase.Listed? then World(ResetListed(w.s, w.phase.ids, deleteOk), Logged(w), Idle) else w
    case _ => w.(s := QuietState(w.s, step))
  }

  // ---------------------------------------------------------------- retry bookkeeping

  const SCHEDULE: seq<nat> := [5, 10, 20, 40, 80]

  ghost predicate RetriedOnSchedule(m: MessageIn, log: seq<Retry>, now: int) {
    && m.tries == |log| <= MAX_TRIES
    && (forall k :: 0 <= k < |log| ==> log[k].backoffSec == SCHEDULE[k] && log[k].at <= now)
    && (forall k :: 0 <= k < |log| - 1 ==> log[k + 1].at >= FloorSec(log[k].at) + 1000 * log[k].backoffSec)
    && (log != [] ==> m.processAfter == At(FloorSec(log[|log| - 1].at) + 1000 * log[|log| - 1].backoffSec))
    && (m.status == Failed ==> |log| == MAX_TRIES && m.processAfter.ms <= now)
  }

  ghost predicate Inv(w: World) {
    && w.log.Keys == w.s.messages.Keys
    && forall id :: id in w.s.messages ==> RetriedOnSchedule(w.s.messages[id], w.log[id], w.s.now)
  }

  lemma BackoffSchedule(k: nat)
    requires k < MAX_TRIES
    ensures BackoffSec(k) == SCHEDULE[k]
  {
    assert Pow2(0) == 1;
    assert Pow2(1) == 2;
    assert Pow2(2) == 4;
    assert Pow2(3) == 8;
    assert Pow2(4) == 16;
  }

  lemma OneRetryMore(m: MessageIn, log: seq<Retry>, now: int, log': seq<Retry>)
    requires RetriedOnSchedule(m, log, now) && Resettable(m, now) && m.tries < MAX_TRIES
    requires log' == log + [Retry(now, BackoffSec(m.tries))]
    ensures forall k :: 0 <= k < |log'| ==> log'[k].backoffSec == SCHEDULE[k] && log'[k].at <= now
    ensures forall k :: 0 <= k < |log'| - 1 ==> log'[k + 1].at >= FloorSec(log'[k].at) + 1000 * log'[k].backoffSec
  {
    BackoffSchedule(m.tries);
    forall k | 0 <= k < |log'| - 1
      ensures log'[k + 1].at >= FloorSec(log'[k].at) + 1000 * log'[k].backoffSec
    {
      if k < |log| - 1 { assert log[k + 1].at >= FloorSec(log[k].at) + 1000 * log[k].backoffSec; }
    }
  }

  lemma ResetKeepsSchedule(m: MessageIn, log: seq<Retry>, now: int)
    requires RetriedOnSchedule(m, log, now) && Resettable(m, now)
    ensures RetriedOnSchedule(ResetMessage(m, now),
                              if m.tries < MAX_TRIES then log + [Retry(now, BackoffSec(m.tries))] else log, now)
  {
    if m.tries < MAX_TRIES { OneRetryMore(m, log, now, log + [Retry(now, BackoffSec(m.tries))]); }
  }

  ghost predicate OnlyCompleted(before: MessageIn, after: MessageIn) {
    after == before || after == before.(status := Completed)
  }

  lemma ResetKeys(w: World, w': World, deleteOk: bool)
    requires Inv(w) && w' == Next(w, ResetPhase(deleteOk))
    ensures w'.log.Keys == w'.s.messages.Keys == w.s.messages.Keys && w'.s.now == w.s.now
  {
  }

  // The reset phase either resets a message and logs the retry, or leaves message and log alone.
  lemma ResetStep(w: World, w': World, deleteOk: bool, id: string)
    requires Inv(w) && w' == Next(w, ResetPhase(deleteOk)) && id in w.s.messages && id in w'.s.messages && id in w'.log
    ensures var m, log := w.s.messages[id], w.log[id];
            if w.phase.Listed? && id in w.phase.ids && Resettable(m, w.s.now) then
              && w'.s.messages[id] == ResetMessage(m, w.s.now)
              && w'.log[id] == if m.tries < MAX_TRIES then log + [Retry(w.s.now, BackoffSec(m.tries))] else log
            else w'.s.messages[id] == m && w'.log[id] == log
  {
  }

  lemma ResetKeepsInv(w: World, w': World, deleteOk: bool)
    requires Inv(w) && w' == Next(w, ResetPhase(deleteOk))
    ensures Inv(w')
  {
    ResetKeys(w, w', deleteOk);
    forall id | id in w'.s.messages
      ensures RetriedOnSchedule(w'.s.messages[id], w'.log[id], w'.s.now)
    {
      ResetStep(w, w', deleteOk, id);
      assert RetriedOnSchedule(w.s.messages[id], w.log[id], w.s.now);
      if Resettable(w.s.messages[id], w.s.now) { ResetKeepsSchedule(w.s.messages[id], w.log[id], w.s.now); }
    }
  }

  lemma LaterKeepsSchedule(m: MessageIn, log: seq<Retry>, now: int, later: int)
    requires RetriedOnSchedule(m, log, now) && now <= later
    ensures RetriedOnSchedule(m, log, later)
    ensures RetriedOnSchedule(m.(status := Completed), log, later)
  {
  }

  lemma SameMessages(w: World, step: Step, w': World)
    requires Inv(w) && !step.ResetPhase? && !step.Insert? && !step.SyncPhase? && w' == Next(w, step)
    ensures w'.s.messages == w.s.messages && w'.log == w.log
  {
  }

  lemma InsertKeeps(w: World, step: Step, w': World, id: string)
    requires Inv(w) && step.Insert? && w' == Next(w, step) && id in w.s.messages
    ensures id in w'.s.messages && id in w'.log && w'.s.messages[id] == w.s.messages[id] && w'.log[id] == w.log[id]
  {
  }

  lemma SyncKeeps(w: World, w': World, id: string)
    requires Inv(w) && w' == Next(w, SyncPhase) && id in w.s.messages
    ensures id in w'.s.messages && id in w'.log
    ensures OnlyCompleted(w.s.messages[id], w'.s.messages[id]) && w'.log[id] == w.log[id]
  {
  }

  // Outside the reset phase a message is at most completed.
  lemma OldMessage(w: World, step: Step, w': World, id: string)
    requires Inv(w) && !step.ResetPhase? && w' == Next(w, step) && id in w.s.messages
    ensures id in w'.s.messages && id in w'.log
    ensures OnlyCompleted(w.s.messages[id], w'.s.messages[id]) && w'.log[id] == w.log[id]
  {
    match step
    case Insert(_, _, _) => InsertKeeps(w, step, w', id);
    case SyncPhase => SyncKeeps(w, w', id);
    case _ => SameMessages(w, step, w');
  }

  lemma NewMessage(w: World, step: Step, w': World, id: string)
    requires Inv(w) && !step.ResetPhase? && w' == Next(w, step) && id in w'.s.messages && id !in w.s.messages
    ensures id in w'.log && w'.log[id] == [] && w'.s.messages[id].status == Pending && w'.s.messages[id].tries == 0
  {
  }

  lemma OtherKeys(w: World, step: Step)
    requires Inv(w) && !step.ResetPhase?
    ensures Next(w, step).log.Keys == Next(w, step).s.messages.Keys && Next(w, step).s.now >= w.s.now
  {
  }

  lemma NextKeepsInv(w: World, step: Step)
    requires Inv(w)
    ensures Inv(Next(w, step))
  {
    if step.ResetPhase? {
      ResetKeepsInv(w, Next(w, step), step.deleteOk);
    } else {
      var w' := Next(w, step);
      OtherKeys(w, step);
      forall id | id in w'.s.messages
        ensures RetriedOnSchedule(w'.s.messages[id], w'.log[id], w'.s.now)
      {
        if id !in w.s.messages {
          NewMessage(w, step, w', id);
        } else {
          OldMessage(w, step, w', id);
          LaterKeepsSchedule(w.s.messages[id], w.log[id], w.s.now, w'.s.now);
        }
      }
    }
  }

  ghost function Run(w: World, steps: seq<Step>): (w': World)
    requires Inv(w)
    ensures Inv(w')
    decreases |steps|
  {
    if steps == [] then w
    else
      NextKeepsInv(w, steps[0]);
      Run(Next(w, steps[0]), steps[1..])
  }

  const EMPTY := World(State(0, map[], map[], None, 0, false), map[], Idle)

  lemma WholeSeconds(a: int, n: int, b: int)
    requires b >= FloorSec(a) + 1000 * n
    ensures FloorSec(b) >= FloorSec(a) + 1000 * n
  {
    assert FloorSec(a) == 1000 * (a / 1000) && FloorSec(b) == 1000 * (b / 1000);
  }

  // Over every run: at most five retries, after exactly 5, 10, 20, 40 and 80 s, each begun only when
  // the previous delay is over; and a message is failed only after all five delays, which is never
  // sooner than 155 s (in whole seconds) after its first reset.
  lemma RetriesFollowTheSchedule(steps: seq<Step>, id: string)
    requires id in Run(EMPTY, steps).s.messages
    ensures var w := Run(EMPTY, steps); var m := w.s.messages[id]; var log := w.log[id];
            && m.tries == |log| <= MAX_TRIES
            && (forall k :: 0 <= k < |log| ==> log[k].backoffSec == [5, 10, 20, 40, 80][k])
            && (forall k :: 0 <= k < |log| - 1 ==> log[k + 1].at >= FloorSec(log[k].at) + 1000 * log[k].backoffSec)
            && (m.status == Failed ==> |log| == MAX_TRIES && w.s.now >= FloorSec(log[0].at) + 155_000)
  {
    var w := Run(EMPTY, steps);
    var m, log := w.s.messages[id], w.log[id];
    assert RetriedOnSchedule(m, log, w.s.now);
    if m.status == Failed {
      for k := 0 to 4
        invariant FloorSec(log[k].at) >= FloorSec(log[0].at) + 1000 * [0, 5, 15, 35, 75][k]
      {
        assert log[k + 1].at >= FloorSec(log[k].at) + 1000 * log[k].backoffSec;
        WholeSeconds(log[k].at, log[k].backoffSec, log[k + 1].at);
      }
    }
  }

  // Who fails a message, and when: only the reset phase of a decided check, and exactly on a listed
  // pending row whose five retries are used up and whose last delay is over.
  lemma FailedExactlyWhen(w: World, step: Step, w': World, id: string)
    requires Inv(w) && w' == Next(w, step) && id in w.s.messages && w.s.messages[id].status == Pending
    ensures id in w'.s.messages
    ensures w'.s.messages[id].status == Failed
            <==> step.ResetPhase? && w.phase.Listed? && id in w.phase.ids
                 && |w.log[id]| == MAX_TRIES && w.s.messages[id].processAfter.ms <= w.s.now
  {
    assert RetriedOnSchedule(w.s.messages[id], w.log[id], w.s.now);
    if step.ResetPhase? {
      ResetKeys(w, w', step.deleteOk);
      ResetStep(w, w', step.deleteOk, id);
    } else {
      OldMessage(w, step, w', id);
    }
  }

  // A rescheduled message becomes due, and so wakes a container, at the very moment its delay is over and
  // it stops being protected from another reset.
  lemma DueExactlyWhenDelayOver(m: MessageIn, now: int, later: int)
    requires Resettable(m, now) && m.tries < MAX_TRIES && m.trigger
    ensures var m' := ResetMessage(m, now);
            && (Due(m', later) <==> later >= FloorSec(now) + 1000 * BackoffSec(m.tries))
            && (Due(m', later) <==> Resettable(m', later))
  {
    var due := FloorSec(now) + 1000 * BackoffSec(m.tries);
    assert FloorSec(due) == due;
    if later >= due { WholeSeconds(now, BackoffSec(m.tries), later); }
  }

  // The sync and the wake in the words of the tables: what has an acknowledgement of either kind becomes
  // completed and nothing else changes; a wake is for a pending row that triggers and is due to the second.
  lemma SyncCompletesAcknowledged(s: State, id: string)
    requires id in s.messages
    ensures SyncAcks(s) == s.(messages := SyncAcks(s).messages) && id in SyncAcks(s).messages
    ensures SyncAcks(s).messages[id]
            == if id in s.acks && (s.acks[id].status == AckCompleted || s.acks[id].status == AckFailed)
               then s.messages[id].(status := Completed) else s.messages[id]
  {
  }

  ghost predicate Wakes(m: MessageIn, now: int) {
    m.status == Pending && m.trigger && match m.processAfter
      case Immediately => true
      case At(ms) => ms / 1000 <= now / 1000
      case Garbled => false
  }

  lemma WakesExactlyWhen(s: State, ok: bool)
    ensures WakeDue(s, ok) == if !s.running && ok && exists id :: id in s.messages && Wakes(s.messages[id], s.now)
                              then s.(running := true, heartbeat := 0) else s
  {
    assert forall id :: id in s.messages ==> (Wakes(s.messages[id], s.now) <==> id in DueSet(s));
  }

  // ---------------------------------------------------------------- acknowledged messages

  // Acknowledged, and not among the claims that a reset under way has listed.
  ghost predicate SafelyAcked(w: World, id: string) {
    Settled(w.s.acks, id) && !(w.phase.Listed? && id in w.phase.ids)
  }

  lemma AckStays(w: World, step: Step, id: string)
    requires Inv(w) && Settled(w.s.acks, id)
    ensures Settled(Next(w, step).s.acks, id)
    ensures SafelyAcked(w, id) ==> SafelyAcked(Next(w, step), id)
  {
  }

  // A step that resets an acknowledged message, failing it or charging it a retry.
  ghost predicate ResetsAcked(w: World, step: Step, id: string) {
    step.ResetPhase? && w.phase.Listed? && id in w.phase.ids && id in w.s.messages
      && Resettable(w.s.messages[id], w.s.now)
  }

  // The message was not reset, retried or failed; it may have been completed.
  ghost predicate Untouched(w: World, w': World, id: string) {
    && id in w.s.messages && id in w'.s.messages && id in w.log && id in w'.log
    && OnlyCompleted(w.s.messages[id], w'.s.messages[id]) && w'.log[id] == w.log[id]
  }

  // A step does more to an acknowledged message than complete it if and only if it is the reset whose
  // list still has the message: the acknowledgement came between the list and the update.
  lemma AckedStep(w: World, step: Step, w': World, id: string)
    requires Inv(w) && w' == Next(w, step) && Settled(w.s.acks, id) && id in w.s.messages
    ensures id in w'.s.messages && id in w'.log
    ensures Untouched(w, w', id) <==> !ResetsAcked(w, step, id)
  {
    if step.ResetPhase? {
      ResetKeys(w, w', step.deleteOk);
      ResetStep(w, w', step.deleteOk, id);
    } else {
      OldMessage(w, step, w', id);
    }
  }

  lemma SafeStep(w: World, step: Step, w': World, id: string)
    requires Inv(w) && w' == Next(w, step) && SafelyAcked(w, id) && id in w.s.messages
    ensures SafelyAcked(w', id) && Untouched(w, w', id)
  {
    AckStays(w, step, id);
    AckedStep(w, step, w', id);
  }

  // Once a container acknowledged a message that no reset under way has listed, no later sweep resets,
  // retries or fails it: the row can only become completed.
  lemma {:induction false} AckedIsNeverReset(w: World, steps: seq<Step>, id: string, w': World)
    requires Inv(w) && SafelyAcked(w, id) && id in w.s.messages && w' == Run(w, steps)
    ensures SafelyAcked(w', id) && Untouched(w, w', id)
    decreases |steps|
  {
    if steps != [] {
      var next := Next(w, steps[0]);
      NextKeepsInv(w, steps[0]);
      SafeStep(w, steps[0], next, id);
      AckedIsNeverReset(next, steps[1..], id, w');
    }
  }

  lemma SyncCompletes(w: World, id: string)
    requires Inv(w) && Settled(w.s.acks, id) && id in w.s.messages
    ensures id in Next(w, SyncPhase).s.messages && Next(w, SyncPhase).s.messages[id].status == Completed
  {
  }

  // Such a charge is put right by the next sync: the message is completed all the same.
  lemma ChargedAckIsCompleted(w: World, deleteOk: bool, id: string, reset: World)
    requires Inv(w) && Settled(w.s.acks, id) && id in w.s.messages
    requires reset == Next(w, ResetPhase(deleteOk)) && Inv(reset)
    ensures id in Next(reset, SyncPhase).s.messages && Next(reset, SyncPhase).s.messages[id].status == Completed
  {
    ResetKeys(w, reset, deleteOk);
    AckStays(w, ResetPhase(deleteOk), id);
    SyncCompletes(reset, id);
  }

  // ---------------------------------------------------------------- the reset is idempotent

  lemma ResetMessageTwice(m: MessageIn, now: int)
    ensures ResetMessage(ResetMessage(m, now), now) == ResetMessage(m, now)
  {
    if Resettable(m, now) && m.tries < MAX_TRIES {
      BackoffSchedule(m.tries);
    }
  }

  // At one instant a second reset changes no message, whether or not either orphan delete worked,
  // and once a delete works no claim is left.
  lemma ResetIdempotent(s: State, first: bool, second: bool)
    ensures Reset(Reset(s, first), second).messages == Reset(s, first).messages
    ensures Claimed(Reset(s, true).acks) == {}
    ensures forall id :: Settled(s.acks, id) <==> Settled(Reset(s, first).acks, id)
  {
    var once := Reset(s, first);
    var twice := Reset(once, second);
    forall id | id in once.messages
      ensures twice.messages[id] == once.messages[id]
    {
      ResetMessageTwice(s.messages[id], s.now);
    }
  }

  // ---------------------------------------------------------------- the grace period

  // Everything recorded since a spawn at time `spawned` that found no claims.
  ghost predicate Fresh(s: State, spawned: int) {
    && spawned <= s.now
    && (s.heartbeat == 0 || spawned <= s.heartbeat)
    && forall id :: id in Claimed(s.acks) ==> s.acks[id].changed.Some? && FloorSec(spawned) <= s.acks[id].changed.value
  }

  // A claim is an old one, or taken in this step.
  lemma ClaimsStep(w: World, step: Step, w': World, id: string)
    requires Inv(w) && w' == Next(w, step) && id in Claimed(w'.s.acks)
    ensures (id in Claimed(w.s.acks) && w'.s.acks[id] == w.s.acks[id])
            || (step.ClaimRow? && w'.s.acks[id].changed == Some(FloorSec(w.s.now)))
  {
  }

  lemma ClockStep(w: World, step: Step, w': World)
    requires Inv(w) && w' == Next(w, step)
    ensures w.s.now <= w'.s.now && (w'.s.heartbeat == 0 || w'.s.heartbeat == w.s.heartbeat || w'.s.heartbeat == w.s.now)
  {
  }

  lemma FreshStep(w: World, step: Step, spawned: int)
    requires Inv(w) && Fresh(w.s, spawned)
    ensures Fresh(Next(w, step).s, spawned)
  {
    var w' := Next(w, step);
    ClockStep(w, step, w');
    WholeSeconds(spawned, 0, w.s.now);
    forall id | id in Claimed(w'.s.acks)
      ensures w'.s.acks[id].changed.Some? && FloorSec(spawned) <= w'.s.acks[id].changed.value
    {
      ClaimsStep(w, step, w', id);
    }
  }

  lemma {:induction false} FreshRun(w: World, steps: seq<Step>, spawned: int)
    requires Inv(w) && Fresh(w.s, spawned)
    ensures Fresh(Run(w, steps).s, spawned)
    decreases |steps|
  {
    if steps != [] {
      NextKeepsInv(w, steps[0]);
      FreshStep(w, steps[0], spawned);
      FreshRun(Next(w, steps[0]), steps[1..], spawned);
    }
  }

  ghost predicate StuckAt(w: World) {
    JudgedStuck(w.s.now, w.s.heartbeat, w.s.tool, w.s.acks)
  }

  // With its claims cleared, a container spawned at time t is never judged stuck up to FloorSec(t) plus
  // the tolerance of what it is doing then, whatever happens in between.
  lemma GracePeriod(w: World, steps: seq<Step>, tolerance: int, ceiling: int)
    requires Inv(w) && !w.s.running && Claimed(w.s.acks) == {}
    requires Limits(Run(Next(w, RouterWake), steps).s.tool, tolerance, ceiling)
    requires Run(Next(w, RouterWake), steps).s.now <= FloorSec(w.s.now) + tolerance
    ensures !StuckAt(Run(Next(w, RouterWake), steps))
  {
    FreshRun(Next(w, RouterWake), steps, w.s.now);
    FreshIsNotStuck(Run(Next(w, RouterWake), steps).s, w.s.now, tolerance, ceiling);
  }

  lemma FreshIsNotStuck(s: State, spawned: int, tolerance: int, ceiling: int)
    requires Fresh(s, spawned) && Limits(s.tool, tolerance, ceiling) && s.now <= FloorSec(spawned) + tolerance
    ensures !JudgedStuck(s.now, s.heartbeat, s.tool, s.acks)
  {
  }

  lemma FirstFiftyNineSeconds(w: World, steps: seq<Step>)
    requires Inv(w) && !w.s.running && Claimed(w.s.acks) == {}
    requires Run(Next(w, RouterWake), steps).s.now <= w.s.now + 59_000
    ensures !StuckAt(Run(Next(w, RouterWake), steps))
  {
    var tolerance, ceiling := LimitsOf(Run(Next(w, RouterWake), steps).s.tool);
    GracePeriod(w, steps, tolerance, ceiling);
  }

  lemma LimitsOf(tool: Option<ContainerState>) returns (tolerance: int, ceiling: int)
    ensures Limits(tool, tolerance, ceiling) && tolerance >= 60_000
  {
    tolerance, ceiling := AtLeast(CLAIM_STUCK_MS, tool), AtLeast(ABSOLUTE_CEILING_MS, tool);
  }

  // The documented window is 60 s from the spawn; the truncated claim time makes it shorter. This
  // run claims a message at once and stays silent.
  ghost function SilentRun(tool: Option<ContainerState>, id: string, ms: nat): seq<Step> {
    [SetTool(tool), Insert(id, true, Immediately), ClaimRow(id), Advance(ms)]
  }

  lemma RunCons(w: World, step: Step, rest: seq<Step>)
    requires Inv(w)
    ensures Inv(Next(w, step)) && Run(w, [step] + rest) == Run(Next(w, step), rest)
  {
    NextKeepsInv(w, step);
    assert ([step] + rest)[1..] == rest;
  }

  lemma FourSteps(a: Step, b: Step, c: Step, d: Step)
    ensures [a, b, c, d] == [a] + [b, c, d] && [b, c, d] == [b] + [c, d] && [c, d] == [c] + [d] && [d] == [d] + []
  {
  }

  lemma RunFour(w: World, a: Step, b: Step, c: Step, d: Step) returns (w1: World, w2: World, w3: World, w4: World)
    requires Inv(w)
    ensures w1 == Next(w, a) && Inv(w1)
    ensures w2 == Next(w1, b) && Inv(w2)
    ensures w3 == Next(w2, c) && Inv(w3)
    ensures w4 == Next(w3, d) && Inv(w4) && w4 == Run(w, [a, b, c, d])
  {
    FourSteps(a, b, c, d);
    RunCons(w, a, [b, c, d]);
    w1 := Next(w, a);
    RunCons(w1, b, [c, d]);
    w2 := Next(w1, b);
    RunCons(w2, c, [d]);
    w3 := Next(w2, c);
    RunCons(w3, d, []);
    w4 := Next(w3, d);
  }

  // The same four steps on the state alone.
  lemma SilentState(w: World, w1: World, w2: World, w3: World, tool: Option<ContainerState>, id: string,
                    ms: nat)
    requires w.s.messages.Keys <= w.log.Keys && w1.s.messages.Keys <= w1.log.Keys
    requires w2.s.messages.Keys <= w2.log.Keys && w3.s.messages.Keys <= w3.log.Keys
    requires w.s.running && w.s.heartbeat == 0 && id !in w.s.messages && id !in w.s.acks
    requires w1 == Next(w, SetTool(tool)) && w2 == Next(w1, Insert(id, true, Immediately))
    requires w3 == Next(w2, ClaimRow(id))
    ensures var s := Next(w3, Advance(ms)).s;
            s.now == w.s.now + ms && s.heartbeat == 0 && s.tool == tool && s.running
            && id in Claimed(s.acks) && s.acks[id].changed == Some(FloorSec(w.s.now))
            && id in s.messages && s.messages[id] == MessageIn(Pending, true, 0, Immediately)
  {
    assert w1.s == w.s.(tool := tool);
    assert w2.s == w1.s.(messages := w.s.messages[id := MessageIn(Pending, true, 0, Immediately)]);
    assert w3.s == w2.s.(acks := w.s.acks[id := Ack(Processing, Some(FloorSec(w.s.now)))]);
  }

  lemma OldClaimIsStuck(s: State, id: string, at: int, tolerance: int, ceiling: int)
    requires s.heartbeat == 0 <= at && Limits(s.tool, tolerance, ceiling)
    requires id in Claimed(s.acks) && s.acks[id].changed == Some(at) && s.now - at > tolerance
    ensures JudgedStuck(s.now, s.heartbeat, s.tool, s.acks)
  {
    assert ClaimStuck(s.now, s.heartbeat, s.tool, Claim(id, s.acks[id].changed));
  }

  // What the silent run leads to: the claim is there, and nothing has been heard since.
  ghost predicate SilentSinceClaim(s: State, tool: Option<ContainerState>, id: string, claimed: int) {
    && s.running && s.heartbeat == 0 && s.tool == tool
    && id in Claimed(s.acks) && s.acks[id].changed == Some(FloorSec(claimed))
    && id in s.messages && s.messages[id] == MessageIn(Pending, true, 0, Immediately)
  }

  lemma SilentOutcome(w: World, tool: Option<ContainerState>, id: string, ms: nat) returns (w': World)
    requires Inv(w) && w.s.running && w.s.heartbeat == 0 && id !in w.s.messages && id !in w.s.acks
    ensures w' == Run(w, SilentRun(tool, id, ms))
    ensures w'.s.now == w.s.now + ms && SilentSinceClaim(w'.s, tool, id, w.s.now)
  {
    var w1, w2, w3, w4 := RunFour(w, SetTool(tool), Insert(id, true, Immediately), ClaimRow(id), Advance(ms));
    SilentState(w, w1, w2, w3, tool, id, ms);
    w' := w4;
  }

  lemma SilentIsStuck(w: World, tool: Option<ContainerState>, tolerance: int, ceiling: int, id: string, claimed: int)
    requires SilentSinceClaim(w.s, tool, id, claimed) && Limits(tool, tolerance, ceiling)
    requires claimed >= 0 && w.s.now > FloorSec(claimed) + tolerance
    ensures StuckAt(w)
  {
    OldClaimIsStuck(w.s, id, FloorSec(claimed), tolerance, ceiling);
  }

  // From a container just started.
  lemma SilentRunIsStuck(w: World, tool: Option<ContainerState>, tolerance: int, ceiling: int, id: string, ms: nat)
    returns (w': World)
    requires Inv(w) && w.s.running && w.s.heartbeat == 0 <= w.s.now && id !in w.s.messages && id !in w.s.acks
    requires Limits(tool, tolerance, ceiling) && w.s.now + ms > FloorSec(w.s.now) + tolerance
    ensures w' == Run(w, SilentRun(tool, id, ms))
    ensures w'.s.now == w.s.now + ms && StuckAt(w') && SilentSinceClaim(w'.s, tool, id, w.s.now)
  {
    w' := SilentOutcome(w, tool, id, ms);
    SilentIsStuck(w', tool, tolerance, ceiling, id, w.s.now);
  }

  ghost predicate NeverStuckAt(w: World, tool: Option<ContainerState>, now: int)
    requires Inv(w)
  {
    forall steps :: Run(w, steps).s.now == now && Run(w, steps).s.tool == tool ==> !StuckAt(Run(w, steps))
  }

  // So the exact bound is FloorSec(t) plus the tolerance, a minute or what Bash declared: no run is judged
  // stuck at time `now` in the midst of `tool` if and only if `now` is within it.
  lemma GraceIsExact(w: World, tool: Option<ContainerState>, tolerance: int, ceiling: int, id: string, now: int)
    requires Inv(w) && !w.s.running && Claimed(w.s.acks) == {} && 0 <= w.s.now <= now
    requires id !in w.s.messages && id !in w.s.acks && Limits(tool, tolerance, ceiling) && Inv(Next(w, RouterWake))
    ensures NeverStuckAt(Next(w, RouterWake), tool, now) <==> now <= FloorSec(w.s.now) + tolerance
  {
    var woken := Next(w, RouterWake);
    if now <= FloorSec(w.s.now) + tolerance {
      forall steps | Run(woken, steps).s.now == now && Run(woken, steps).s.tool == tool
        ensures !StuckAt(Run(woken, steps))
      {
        GracePeriod(w, steps, tolerance, ceiling);
      }
    } else {
      StartEffect(w, woken);
      var w' := SilentRunIsStuck(woken, tool, tolerance, ceiling, id, now - w.s.now);
    }
  }

  // A container that starts a Bash call with timeout t, claims a message at once and stays silent is judged
  // stuck if and only if the start of its second is more than a minute and more than t ago.
  lemma BashIsGivenItsTime(w: World, t: int, id: string, ms: nat, w': World)
    requires Inv(w) && !w.s.running && Claimed(w.s.acks) == {} && w.s.now >= 0 && id !in w.s.messages && id !in w.s.acks
    requires Inv(Next(w, RouterWake))
    requires w' == Run(Next(w, RouterWake), SilentRun(Some(ContainerState(Some("Bash"), Some(t))), id, ms))
    ensures w'.s.now == w.s.now + ms
    ensures StuckAt(w') <==> w'.s.now - FloorSec(w.s.now) > 60_000 && w'.s.now - FloorSec(w.s.now) > t
  {
    var bash := Some(ContainerState(Some("Bash"), Some(t)));
    var tolerance, ceiling := LimitsOf(bash);
    StartEffect(w, Next(w, RouterWake));
    var _ := SilentOutcome(Next(w, RouterWake), bash, id, ms);
    if w'.s.now > FloorSec(w.s.now) + tolerance {
      var _ := SilentRunIsStuck(Next(w, RouterWake), bash, tolerance, ceiling, id, ms);
    } else {
      GracePeriod(w, SilentRun(bash, id, ms), tolerance, ceiling);
    }
  }

  // A concrete case: spawned at 0.999 s, killed at 60.001 s, after 59.002 s of silence.
  lemma GraceFallsShortOfSixtySeconds(id: string)
    ensures var w := EMPTY.(s := EMPTY.s.(now := 999));
            var w' := Run(Next(w, RouterWake), SilentRun(None, id, 59_002));
            StuckAt(w') && w'.s.now - w.s.now < CLAIM_STUCK_MS
  {
    var w := EMPTY.(s := EMPTY.s.(now := 999));
    NextKeepsInv(w, RouterWake);
    StartEffect(w, Next(w, RouterWake));
    var w' := SilentRunIsStuck(Next(w, RouterWake), None, 60_000, 1_800_000, id, 59_002);
  }

  // ---------------------------------------------------------------- signs of life

  // A heartbeat after all of its claims keeps a container from being judged stuck for exactly the ceiling.
  lemma HeartbeatIsGoodForTheCeiling(w: World, ms: nat, tolerance: int, ceiling: int, w': World)
    requires Inv(w) && w.s.running && w.s.now > 0 && Limits(w.s.tool, tolerance, ceiling)
    requires forall id :: id in Claimed(w.s.acks) && w.s.acks[id].changed.Some? ==> w.s.acks[id].changed.value < w.s.now
    requires Inv(Next(w, TouchHeartbeat)) && w' == Next(Next(w, TouchHeartbeat), Advance(ms))
    ensures StuckAt(w') <==> ms > ceiling
  {
    var beaten := Next(w, TouchHeartbeat);
    assert beaten.s == w.s.(heartbeat := w.s.now);
    assert w'.s == beaten.s.(now := w.s.now + ms);
  }

  // A container that clears the left-over claims when it starts is not judged stuck then.
  lemma ClearedIsNotStuck(w: World, started: World, w': World)
    requires Inv(w) && !w.s.running && started == Next(w, RouterWake) && Inv(started)
    requires w' == Next(started, ClearStaleAcks)
    ensures Claimed(w'.s.acks) == {} && !StuckAt(w')
    ensures forall id :: Settled(w'.s.acks, id) <==> Settled(w.s.acks, id)
  {
    StartEffect(w, started);
  }

  // A message acknowledged either way is completed by the next sync.
  lemma AcknowledgedIsCompleted(w: World, id: string, ok: bool, acked: World, synced: World)
    requires Inv(w) && w.s.running && id in w.s.messages && acked == Next(w, Acknowledge(id, ok)) && Inv(acked)
    requires synced == Next(acked, SyncPhase)
    ensures acked.s.acks == w.s.acks[id := acked.s.acks[id]] && (acked.s.acks[id].status == AckCompleted <==> ok)
    ensures Settled(acked.s.acks, id) && acked.s.acks[id].changed == Some(FloorSec(w.s.now))
    ensures id in synced.s.messages && synced.s.messages[id].status == Completed
  {
    SyncCompletes(acked, id);
  }

  // A running container also claims rows that would not have woken it.
  lemma SilentRowIsClaimed(w: World, id: string, w': World)
    requires Inv(w) && w.s.running && id in w.s.messages && id !in w.s.acks && w' == Next(w, ClaimRow(id))
    requires w.s.messages[id].status == Pending && !w.s.messages[id].trigger
    requires w.s.messages[id].processAfter == Immediately
    ensures id in Claimed(w'.s.acks) && id !in DueSet(w.s)
  {
  }

  // ---------------------------------------------------------------- the tick that wakes

  // In one sweep the stuck check follows the wake and reads the claims from before it. The container
  // woken in this tick is killed, and its claimed messages are charged a retry, if and only if some
  // left-over claim is older than the tolerance when the wake is done.
  lemma WokenContainerKilledAtOnce(s: State, spent: nat, deleteOk: bool, tolerance: int, ceiling: int)
    requires Limits(s.tool, tolerance, ceiling) && !s.running && DueSet(SyncAcks(s)) != {}
    ensures var woken := Woken(s, true, spent);
            && woken.running
            && (Resets(woken) <==>
                exists id :: id in Claimed(s.acks) && s.acks[id].changed.Some? && 0 <= s.acks[id].changed.value
                             && s.now + spent - s.acks[id].changed.value > tolerance)
    ensures var woken := Woken(s, true, spent); var after := Sweep(s, true, spent, deleteOk);
            forall id :: id in s.messages ==>
              after.messages[id].tries == s.messages[id].tries + (if Resets(woken) && Retried(woken, id) then 1 else 0)
  {
    var woken := Woken(s, true, spent);
    if AnyClaimStuck(woken.now, 0, woken.tool, woken.acks) {
      var id :| id in Claimed(woken.acks) && ClaimStuck(woken.now, 0, woken.tool, Claim(id, woken.acks[id].changed));
    }
    if id :| id in Claimed(s.acks) && s.acks[id].changed.Some? && 0 <= s.acks[id].changed.value
             && s.now + spent - s.acks[id].changed.value > tolerance {
      assert ClaimStuck(woken.now, 0, woken.tool, Claim(id, woken.acks[id].changed));
    }
  }

  // It happens in a run from the start: a container claims message a and crashes; a minute later b is due,
  // the sweep wakes a container for it, and in the same tick charges a a retry and kills that container.
  ghost function Crash(a: string): seq<Step> { [RouterWake, Insert(a, true, Immediately), ClaimRow(a), ContainerExit] }

  ghost function MinuteLater(b: string): seq<Step> {
    [Advance(61_000), Insert(b, true, Immediately), SyncPhase, WakePhase(true)]
  }

  // Message a is claimed since time 0 by a container that is gone.
  ghost predicate Crashed(s: State, a: string) {
    && !s.running && s.heartbeat == 0 && s.tool == None && s.acks == map[a := Ack(Processing, Some(0))]
    && s.messages == map[a := MessageIn(Pending, true, 0, Immediately)]
  }

  ghost predicate Empty(s: State) {
    s.messages == map[] && s.acks == map[] && s.tool == None && s.heartbeat == 0 && !s.running
  }

  lemma CrashEffect(w: World, a: string) returns (w': World)
    requires Inv(w) && w.s.now == 0 && Empty(w.s)
    ensures w' == Run(w, Crash(a)) && Inv(w') && w'.s.now == 0 && Crashed(w'.s, a)
  {
    var w1, w2, w3, w4 := RunFour(w, RouterWake, Insert(a, true, Immediately), ClaimRow(a), ContainerExit);
    StartEffect(w, w1);
    InsertEffect(w1, a, w2);
    ClaimEffect(w2, a, w3);
    ExitEffect(w3, w4);
    w' := w4;
  }

  lemma StartEffect(w: World, w': World)
    requires Inv(w) && w' == Next(w, RouterWake) && !w.s.running
    ensures w'.s == Spawn(w.s)
  {
  }

  lemma InsertEffect(w: World, id: string, w': World)
    requires Inv(w) && w' == Next(w, Insert(id, true, Immediately)) && id !in w.s.messages
    ensures w'.s == w.s.(messages := w.s.messages[id := MessageIn(Pending, true, 0, Immediately)])
  {
  }

  lemma ExitEffect(w: World, w': World)
    requires Inv(w) && w' == Next(w, ContainerExit)
    ensures w'.s == w.s.(running := false)
  {
  }

  lemma ClaimEffect(w: World, a: string, w': World)
    requires Inv(w) && w' == Next(w, ClaimRow(a)) && w.s.running && a in w.s.messages && a !in w.s.acks
    requires w.s.messages[a] == MessageIn(Pending, true, 0, Immediately)
    ensures w'.s == w.s.(acks := w.s.acks[a := Ack(Processing, Some(FloorSec(w.s.now)))])
  {
  }

  lemma SyncEffect(w: World, w': World, id: string)
    requires Inv(w) && w' == Next(w, SyncPhase) && id in w.s.messages && !Settled(w.s.acks, id)
    ensures w'.s == w.s.(messages := w'.s.messages) && id in w'.s.messages && w'.s.messages[id] == w.s.messages[id]
  {
  }

  lemma WakeEffect(w: World, w': World, b: string)
    requires Inv(w) && w' == Next(w, WakePhase(true)) && b in w.s.messages
    requires Due(w.s.messages[b], w.s.now) && !w.s.running
    ensures w'.s == Spawn(w.s)
  {
    assert b in DueSet(w.s);
  }

  lemma MinuteLaterEffect(w: World, a: string, b: string) returns (w': World)
    requires Inv(w) && a != b && w.s.now == 0 && Crashed(w.s, a)
    ensures w' == Run(w, MinuteLater(b)) && Inv(w')
    ensures w'.s.now == 61_000 && w'.s.running && w'.s.heartbeat == 0 && w'.s.tool == None && w'.s.acks == w.s.acks
    ensures a in w'.s.messages && w'.s.messages[a] == w.s.messages[a]
  {
    var w1, w2, w3, w4 := RunFour(w, Advance(61_000), Insert(b, true, Immediately), SyncPhase, WakePhase(true));
    InsertEffect(w1, b, w2);
    SyncEffect(w2, w3, a);
    SyncEffect(w2, w3, b);
    WakeEffect(w3, w4, b);
    w' := w4;
  }

  // A check of a stuck container, one phase after the other.
  ghost function CheckNow(w: World): World
    requires Inv(w)
  {
    NextKeepsInv(w, JudgePhase);
    NextKeepsInv(Next(w, JudgePhase), ListPhase);
    Next(Next(Next(w, JudgePhase), ListPhase), ResetPhase(true))
  }

  lemma ListEffect(w: World, listed: World)
    requires Inv(w) && Inv(Next(w, JudgePhase)) && Resets(w.s) && listed == Next(Next(w, JudgePhase), ListPhase)
    ensures listed == w.(phase := Listed(Claimed(w.s.acks)))
  {
  }

  lemma ResetEffect(w: World, deleteOk: bool)
    requires Inv(w) && w.phase.Listed?
    ensures Next(w, ResetPhase(deleteOk)).s == ResetListed(w.s, w.phase.ids, deleteOk)
  {
  }

  lemma StuckIsReset(w: World, id: string)
    requires Inv(w) && StuckAt(w) && id in w.s.messages && id in Claimed(w.s.acks)
    ensures id in CheckNow(w).s.messages && CheckNow(w).s.messages[id] == ResetMessage(w.s.messages[id], w.s.now)
  {
    NextKeepsInv(w, JudgePhase);
    NextKeepsInv(Next(w, JudgePhase), ListPhase);
    var listed := Next(Next(w, JudgePhase), ListPhase);
    ListEffect(w, listed);
    ResetEffect(listed, true);
    ResetMessagesAt(w.s, id);
  }

  lemma WokenContainerIsKilled(a: string, b: string) returns (woken: World)
    requires a != b
    ensures woken == Run(Run(EMPTY, Crash(a)), MinuteLater(b)) && woken.s.running && StuckAt(woken)
    ensures a in woken.s.messages && a in CheckNow(woken).s.messages
    ensures woken.s.messages[a].tries == 0 && CheckNow(woken).s.messages[a].tries == 1
  {
    var crashed := CrashEffect(EMPTY, a);
    woken := MinuteLaterEffect(crashed, a, b);
    OldClaimIsStuck(woken.s, a, 0, 60_000, 1_800_000);
    StuckIsReset(woken, a);
  }

  // A run in which the acknowledgement comes between the list and the update: the container is being
  // stopped, acknowledges its message, and the message is charged a retry all the same.
  lemma AckBehindTheListIsReset(id: string) returns (w: World, acked: World, reset: World)
    ensures w == Run(Next(EMPTY, RouterWake), SilentRun(None, id, 61_000))
    ensures Inv(w) && Inv(Next(w, JudgePhase)) && Inv(Next(Next(w, JudgePhase), ListPhase))
    ensures acked == Next(Next(Next(w, JudgePhase), ListPhase), Acknowledge(id, true)) && Inv(acked)
    ensures Settled(acked.s.acks, id) && ResetsAcked(acked, ResetPhase(true), id) && acked.s.messages[id].tries == 0
    ensures reset == Next(acked, ResetPhase(true)) && Settled(reset.s.acks, id)
    ensures id in reset.s.messages && reset.s.messages[id].tries == 1 && reset.s.messages[id].status == Pending
  {
    NextKeepsInv(EMPTY, RouterWake);
    StartEffect(EMPTY, Next(EMPTY, RouterWake));
    w := SilentRunIsStuck(Next(EMPTY, RouterWake), None, 60_000, 1_800_000, id, 61_000);
    NextKeepsInv(w, JudgePhase);
    NextKeepsInv(Next(w, JudgePhase), ListPhase);
    var listed := Next(Next(w, JudgePhase), ListPhase);
    ListEffect(w, listed);
    acked := Next(listed, Acknowledge(id, true));
    NextKeepsInv(listed, Acknowledge(id, true));
    reset := Next(acked, ResetPhase(true));
    ChargedOnce(acked, id, reset);
  }

  lemma ChargedOnce(w: World, id: string, reset: World)
    requires Inv(w) && Settled(w.s.acks, id) && ResetsAcked(w, ResetPhase(true), id) && w.s.messages[id].tries == 0
    requires reset == Next(w, ResetPhase(true))
    ensures Settled(reset.s.acks, id)
    ensures id in reset.s.messages && reset.s.messages[id].tries == 1 && reset.s.messages[id].status == Pending
  {
    ResetKeys(w, reset, true);
    ResetStep(w, reset, true, id);
    AckStays(w, ResetPhase(true), id);
  }

  lemma ResetMessagesAt(s: State, id: string)
    requires id in s.messages && id in Claimed(s.acks)
    ensures ResetMessages(s.messages, Claimed(s.acks), s.now)[id] == ResetMessage(s.messages[id], s.now)
  {
  }
}
