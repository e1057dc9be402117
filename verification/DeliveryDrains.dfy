// What a drain does to each message waiting in it, in every interleaving, and how three drains settle a
// message that is always refused.
module DeliveryDrains {
  import opened Wrappers
  import opened Delivery
  import opened DeliveryRuns

  // ---------------------------------------------------------------- one call per drain

  // The drain of p goes on through all of these steps.
  ghost predicate KeepsDraining(h: Host, steps: seq<Step>, p: nat)
    decreases |steps|
  {
    Drains(h, p) && (steps == [] || KeepsDraining(Next(h, steps[0]), steps[1..], p))
  }

  // m belongs to the drained session, and its calls are up by one since they were `calls` exactly when the
  // drain is past it or has its answer.
  ghost predicate OnItsWay(h: Host, p: nat, m: MessageId, calls: nat) {
    && Drains(h, p) && m in Due(h, h.pollers[p].session)
    && Count(h.log.calls, m) == calls + (if Queued(h, p, m) && ReplyFor(h, p, m) == None then 0 else 1)
  }

  lemma OtherCall(h: Host, p: nat, q: nat, o: Outcome, m: MessageId, calls: nat, h': Host)
    requires Inv(h) && OnItsWay(h, p, m, calls) && q != p && h' == Next(h, Call(q, o))
    ensures OnItsWay(h', p, m, calls)
  {
    if h' != h {
      assert DrainOk(h, h.pollers[q]);
      assert h.pollers[q].todo[0] in Due(h, h.pollers[q].session);
    }
  }

  lemma OwnCall(h: Host, p: nat, o: Outcome, m: MessageId, calls: nat, h': Host)
    requires Inv(h) && OnItsWay(h, p, m, calls) && h' == Next(h, Call(p, o))
    ensures OnItsWay(h', p, m, calls)
  {
  }

  lemma ReplyOnTheWay(h: Host, p: nat, q: nat, m: MessageId, calls: nat, h': Host)
    requires Inv(h) && OnItsWay(h, p, m, calls) && h' == Next(h, Reply(q))
    ensures OnItsWay(h', p, m, calls)
  {
    assert DrainOk(h, h.pollers[p]);
  }

  lemma QuietOnTheWay(h: Host, step: Step, p: nat, m: MessageId, calls: nat, h': Host)
    requires Inv(h) && OnItsWay(h, p, m, calls) && h' == Next(h, step) && Drains(h', p)
    requires step.Append? || step.Tick? || step.Enter? || step.Leave? || step.Throw?
    ensures OnItsWay(h', p, m, calls)
  {
    QuietFrame(h, step, h');
  }

  lemma StepOnTheWay(h: Host, step: Step, p: nat, m: MessageId, calls: nat, h': Host)
    requires Inv(h) && OnItsWay(h, p, m, calls) && h' == Next(h, step) && Drains(h', p)
    ensures OnItsWay(h', p, m, calls)
  {
    match step
    case Call(q, o) => if q == p { OwnCall(h, p, o, m, calls, h'); } else { OtherCall(h, p, q, o, m, calls, h'); }
    case Reply(q) => ReplyOnTheWay(h, p, q, m, calls, h');
    case Restart =>
    case _ => QuietOnTheWay(h, step, p, m, calls, h');
  }

  lemma {:induction false} RunOnTheWay(h: Host, steps: seq<Step>, p: nat, m: MessageId, calls: nat, h': Host)
    requires Inv(h) && OnItsWay(h, p, m, calls) && KeepsDraining(h, steps, p) && h' == Run(h, steps)
    ensures OnItsWay(h', p, m, calls)
    decreases |steps|
  {
    if steps != [] {
      var next := Next(h, steps[0]);
      assert KeepsDraining(next, steps[1..], p);
      NextKeepsInv(h, steps[0]);
      StepOnTheWay(h, steps[0], p, m, calls, next);
      RunOnTheWay(next, steps[1..], p, m, calls, h');
    }
  }

  // While a drain goes on, other polls, new messages and other drains may come in between at any await;
  // by the time it has nothing left, it has called the adapter exactly once for every message that was
  // waiting in it, and nobody else has.
  lemma DrainedIsCalledOnce(h: Host, steps: seq<Step>, p: nat, m: MessageId, h': Host)
    requires Inv(h) && Queued(h, p, m) && h.pollers[p].reply == None
    requires KeepsDraining(h, steps, p) && h' == Run(h, steps) && Drains(h', p) && h'.pollers[p].todo == []
    ensures Count(h'.log.calls, m) == Count(h.log.calls, m) + 1
  {
    assert DrainOk(h, h.pollers[p]);
    RunOnTheWay(h, steps, p, m, Count(h.log.calls, m), h');
  }

  // ---------------------------------------------------------------- calls in the order of the outbox

  // m stands before n.
  ghost predicate Before(s: seq<MessageId>, m: MessageId, n: MessageId) {
    exists i, j :: 0 <= i < j < |s| && s[i] == m && s[j] == n
  }

  lemma BeforeIsKept(due: seq<MessageId>, delivered: map<MessageId, Row>, todo: seq<MessageId>, m: MessageId,
                     n: MessageId)
    requires NoDuplicates(due) && Before(due, m, n) && todo == Undelivered(due, delivered)
    requires m !in delivered && n !in delivered
    ensures Before(todo, m, n)
  {
    var at := OrderIsKept(due, delivered, todo);
    UndeliveredAre(due, delivered, todo);
    var i, j :| 0 <= i < j < |due| && due[i] == m && due[j] == n;
    assert m in due && n in due;
    var k :| 0 <= k < |todo| && todo[k] == m;
    var l :| 0 <= l < |todo| && todo[l] == n;
    assert at[k] == i && at[l] == j;
  }

  // While a drain goes on, messages leave it at the head only.
  lemma {:induction false} OnlyHeadsLeave(h: Host, steps: seq<Step>, p: nat, h': Host) returns (k: nat)
    requires KeepsDraining(h, steps, p) && h' == Run(h, steps)
    ensures Drains(h', p) && k <= |h.pollers[p].todo| && h'.pollers[p].todo == h.pollers[p].todo[k..]
    decreases |steps|
  {
    k := 0;
    if steps != [] {
      var next := Next(h, steps[0]);
      var first := StepLeavesHead(h, steps[0], p, next);
      var later := OnlyHeadsLeave(next, steps[1..], p, h');
      k := first + later;
    }
  }

  lemma StepLeavesHead(h: Host, step: Step, p: nat, h': Host) returns (k: nat)
    requires Drains(h, p) && h' == Next(h, step) && Drains(h', p)
    ensures k <= |h.pollers[p].todo| && h'.pollers[p].todo == h.pollers[p].todo[k..]
  {
    k := if step == Reply(p) && h.pollers[p].todo != [] && h.pollers[p].reply.Some? then 1 else 0;
    match step
    case Enter(q) =>
    case _ =>
  }

  lemma WaitsBehind(todo: seq<MessageId>, k: nat, m: MessageId, n: MessageId)
    requires NoDuplicates(todo) && Before(todo, m, n) && k <= |todo| && m in todo[k..]
    ensures n in todo[k..] && todo[k] != n
  {
    var i, j :| 0 <= i < j < |todo| && todo[i] == m && todo[j] == n;
    var l :| 0 <= l < |todo[k..]| && todo[k..][l] == m;
    assert todo[k + l] == m && k + l == i;
    assert todo[k..][j - k] == n;
  }

  // A new message stands behind all that are there, and those keep their order.
  lemma NewestStandsLast(h: Host, s: SessionId, id: MessageId, h': Host, m: MessageId, n: MessageId)
    requires !Known(h, id) && h' == Next(h, Append(s, id))
    ensures m in Due(h, s) ==> Before(Due(h', s), m, id)
    ensures Before(Due(h, s), m, n) ==> Before(Due(h', s), m, n)
  {
    var due, due' := Due(h, s), Due(h', s);
    assert due' == due + [id] && due'[|due|] == id;
    assert forall i :: 0 <= i < |due| ==> due'[i] == due[i];
    if m in due {
      var i :| 0 <= i < |due| && due[i] == m;
      assert due'[i] == m;
    }
    if Before(due, m, n) {
      var i, j :| 0 <= i < j < |due| && due[i] == m && due[j] == n;
      assert due'[i] == m && due'[j] == n;
    }
  }

  // A poll loop that comes to a session being drained goes on to the next one without touching anything.
  lemma SkipsWhatIsInFlight(h: Host, p: nat, h': Host)
    requires p in h.pollers && h.pollers[p].Walking? && h.pollers[p].rest != [] && h.pollers[p].rest[0] in h.inflight
    requires h' == Next(h, Enter(p))
    ensures p in h'.pollers && h'.pollers[p] == Walking(h.pollers[p].rest[1..])
    ensures forall q :: q != p ==>
            (q in h'.pollers <==> q in h.pollers) && (q in h.pollers ==> h'.pollers[q] == h.pollers[q])
    ensures h' == h.(pollers := h'.pollers)
  {
  }

  // From the moment a drain begins, and whatever comes in between: of two messages waiting in it, the one
  // that stands first in the outbox is called first.
  lemma CallsInOrder(h: Host, p: nat, m: MessageId, n: MessageId, begun: Host, steps: seq<Step>, h': Host)
    requires Inv(h) && Visits(h, p, m) && Before(Due(h, h.pollers[p].rest[0]), m, n)
    requires m !in h.tables.delivered && n !in h.tables.delivered
    requires begun == Next(h, Enter(p)) && KeepsDraining(begun, steps, p) && h' == Run(begun, steps)
    ensures Count(h'.log.calls, n) > Count(h.log.calls, n) ==> Count(h'.log.calls, m) == Count(h.log.calls, m) + 1
  {
    var due := Due(h, h.pollers[p].rest[0]);
    var i, j :| 0 <= i < j < |due| && due[i] == m && due[j] == n;
    assert n in due;
    EnterFrame(h, p, begun);
    EnterQueues(h, p, m, begun);
    EnterQueues(h, p, n, begun);
    NextKeepsInv(h, Enter(p));
    EnteredTodo(h, p, begun);
    BeforeIsKept(due, h.tables.delivered, begun.pollers[p].todo, m, n);
    BothOnTheWay(begun, steps, p, m, n, h');
  }

  lemma EnteredTodo(h: Host, p: nat, begun: Host)
    requires p in h.pollers && h.pollers[p].Walking? && h.pollers[p].rest != [] && h.pollers[p].rest[0] !in h.inflight
    requires begun == Next(h, Enter(p))
    ensures Drains(begun, p)
    ensures begun.pollers[p].todo == Undelivered(Due(h, h.pollers[p].rest[0]), h.tables.delivered)
  {
  }

  lemma BothOnTheWay(h: Host, steps: seq<Step>, p: nat, m: MessageId, n: MessageId, h': Host)
    requires Inv(h) && Queued(h, p, m) && Queued(h, p, n) && h.pollers[p].reply == None
    requires Before(h.pollers[p].todo, m, n) && KeepsDraining(h, steps, p) && h' == Run(h, steps)
    ensures Count(h'.log.calls, n) > Count(h.log.calls, n) ==> Count(h'.log.calls, m) == Count(h.log.calls, m) + 1
  {
    assert DrainOk(h, h.pollers[p]);
    RunOnTheWay(h, steps, p, m, Count(h.log.calls, m), h');
    RunOnTheWay(h, steps, p, n, Count(h.log.calls, n), h');
    var todo := h.pollers[p].todo;
    var k := OnlyHeadsLeave(h, steps, p, h');
    if Queued(h', p, m) {
      WaitsBehind(todo, k, m, n);
      assert Queued(h', p, n) && h'.pollers[p].todo[0] == todo[k];
    }
  }

  // ---------------------------------------------------------------- three drains

  // The poll loop p comes to the session of m, which nobody is draining.
  ghost predicate Visits(h: Host, p: nat, m: MessageId) {
    && p in h.pollers && h.pollers[p].Walking? && h.pollers[p].rest != []
    && h.pollers[p].rest[0] !in h.inflight && m in Due(h, h.pollers[p].rest[0])
  }

  // The drain that begins then has m waiting in it unless m is settled.
  lemma EnterQueues(h: Host, p: nat, m: MessageId, h': Host)
    requires Visits(h, p, m) && h' == Next(h, Enter(p))
    ensures Drains(h', p) && h'.pollers[p].reply == None
    ensures Queued(h', p, m) <==> m !in h.tables.delivered
  {
    var due := Due(h, h.pollers[p].rest[0]);
    UndeliveredAre(due, h.tables.delivered, Undelivered(due, h.tables.delivered));
  }

  // Anything but a restart, then a drain of m's session that goes on until nothing is left in it.
  datatype Round = Round(before: seq<Step>, p: nat, during: seq<Step>)

  ghost function Entered(h: Host, r: Round): Host { Next(Run(h, r.before), Enter(r.p)) }

  ghost function RunRound(h: Host, r: Round): Host { Run(Entered(h, r), r.during) }

  ghost predicate Finishes(h: Host, r: Round, m: MessageId) {
    && NoRestart(r.before) && Visits(Run(h, r.before), r.p, m) && m !in Run(h, r.before).tables.delivered
    && KeepsDraining(Entered(h, r), r.during, r.p)
    && Drains(RunRound(h, r), r.p) && RunRound(h, r).pollers[r.p].todo == []
  }

  lemma CallsStep(h: Host, step: Step, m: MessageId, h': Host)
    requires h' == Next(h, step) && !step.Restart?
    ensures Count(h'.log.calls, m) >= Count(h.log.calls, m)
  {
    match step
    case Call(_, _) =>
    case Reply(_) =>
    case _ => QuietFrame(h, step, h');
  }

  lemma {:induction false} CallsOnlyGrow(h: Host, steps: seq<Step>, m: MessageId)
    requires NoRestart(steps)
    ensures Count(Run(h, steps).log.calls, m) >= Count(h.log.calls, m)
    decreases |steps|
  {
    if steps != [] {
      assert !steps[0].Restart? && NoRestart(steps[1..]);
      CallsStep(h, steps[0], m, Next(h, steps[0]));
      CallsOnlyGrow(Next(h, steps[0]), steps[1..], m);
    }
  }

  lemma RoundCalls(h: Host, r: Round, m: MessageId, h': Host)
    requires Inv(h) && Finishes(h, r, m) && h' == RunRound(h, r)
    ensures Inv(h') && Count(h'.log.calls, m) >= Count(h.log.calls, m) + 1
  {
    var h1 := Run(h, r.before);
    var h2 := Next(h1, Enter(r.p));
    RunKeepsInv(h, r.before);
    CallsOnlyGrow(h, r.before, m);
    NextKeepsInv(h1, Enter(r.p));
    EnterQueues(h1, r.p, m, h2);
    EnterFrame(h1, r.p, h2);
    DrainedIsCalledOnce(h2, r.during, r.p, m, h');
    RunKeepsInv(h2, r.during);
  }

  // After the drain no answer for m is waiting to be counted.
  lemma RoundSettles(h: Host, r: Round, m: MessageId, h': Host)
    requires Inv(h) && Finishes(h, r, m) && h' == RunRound(h, r) && Inv(h')
    ensures !ThrownUnrecorded(h', m)
  {
    var h1 := Run(h, r.before);
    var h2 := Next(h1, Enter(r.p));
    RunKeepsInv(h, r.before);
    NextKeepsInv(h1, Enter(r.p));
    EnterQueues(h1, r.p, m, h2);
    assert DrainOk(h2, h2.pollers[r.p]);
    RunOnTheWay(h2, r.during, r.p, m, Count(h2.log.calls, m), h');
    forall q
      ensures ReplyFor(h', q, m) == None
    {
      if ReplyFor(h', q, m) != None {
        assert Queued(h', q, m);
      }
    }
  }

  // The adapter refuses every call for m: three drains of its session that finish in one process, each
  // begun before m is settled, make exactly three calls, and m is recorded failed.
  lemma ThreeDrainsFail(h: Host, r1: Round, r2: Round, r3: Round, m: MessageId, h': Host)
    requires Inv(h) && Finishes(h, r1, m) && Finishes(RunRound(h, r1), r2, m)
    requires Finishes(RunRound(RunRound(h, r1), r2), r3, m) && h' == RunRound(RunRound(RunRound(h, r1), r2), r3)
    requires Count(h'.log.failures, m) == Count(h'.log.calls, m)
    ensures Count(h'.log.calls, m) == MAX_DELIVERY_ATTEMPTS
    ensures m in h'.tables.delivered && h'.tables.delivered[m] == FailedRow
  {
    var h1 := RunRound(h, r1);
    var h2 := RunRound(h1, r2);
    RoundCalls(h, r1, m, h1);
    RoundCalls(h1, r2, m, h2);
    RoundCalls(h2, r3, m, h');
    RoundSettles(h2, r3, m, h');
    assert CountsOk(h', m);
  }

  // ---------------------------------------------------------------- the uninterrupted drain

  ghost function DrainSteps(p: nat, todo: seq<MessageId>, outcome: MessageId -> Outcome): seq<Step> {
    if todo == [] then [] else [Call(p, outcome(todo[0])), Reply(p)] + DrainSteps(p, todo[1..], outcome)
  }

  // Whatever the outcomes, a drain calls the adapter for every queued message, and the protocol's
  // steps add up to the settlement the drain loop computes.
  lemma {:induction false} DrainReachesAll(h: Host, p: nat, outcome: MessageId -> Outcome)
    requires Drains(h, p) && h.pollers[p].reply == None && NoDuplicates(h.pollers[p].todo)
    ensures var h' := Run(h, DrainSteps(p, h.pollers[p].todo, outcome)); var todo := h.pollers[p].todo;
            && h'.tables == SettleAll(h.tables, todo, outcome)
            && Drains(h', p) && h'.pollers[p] == h.pollers[p].(todo := [])
            && forall m :: Count(h'.log.calls, m) == Count(h.log.calls, m) + (if m in todo then 1 else 0)
    decreases |h.pollers[p].todo|
  {
    var todo := h.pollers[p].todo;
    if todo != [] {
      var h1 := Next(h, Call(p, outcome(todo[0])));
      var h2 := Next(h1, Reply(p));
      RunTwo(h, Call(p, outcome(todo[0])), Reply(p), DrainSteps(p, todo[1..], outcome));
      DrainReachesAll(h2, p, outcome);
      forall m
        ensures m in todo <==> m == todo[0] || m in todo[1..]
      {
      }
    }
  }
}
