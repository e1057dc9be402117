// When the adapter accepts a message again: exactly after an acceptance whose record was lost, to an
// exception in this process or to a restart; and runs that reach every number of acceptances allowed.
module DeliveryRepeats {
  import opened Wrappers
  import opened Delivery
  import opened DeliveryRuns

  // ---------------------------------------------------------------- the balance of one process lifetime

  // Acceptances of m that no exception followed and no drain is about to record.
  ghost function Unaccounted(h: Host, m: MessageId): int {
    Count(h.log.accepted, m) - Count(h.log.faults, m) - (if SentUnrecorded(h, m) then 1 else 0)
  }

  lemma CallBalance(h: Host, p: nat, o: Outcome, m: MessageId, h': Host)
    requires Inv(h) && Inv(h') && h' == Next(h, Call(p, o)) && h' != h
    ensures Unaccounted(h', m) == Unaccounted(h, m)
  {
    var id := h.pollers[p].todo[0];
    if m == id {
      HeadDecides(h, p);
      HeadDecides(h', p);
    } else {
      CallOtherReplies(h, h', p, o, m);
      SameReplies(h, h', m);
    }
  }

  lemma ReplyReplies(h: Host, p: nat, m: MessageId, h': Host)
    requires Inv(h) && h' == Next(h, Reply(p)) && h' != h && m != h.pollers[p].todo[0]
    ensures forall q :: ReplyFor(h, q, m) == ReplyFor(h', q, m)
  {
  }

  lemma ReplyBalance(h: Host, p: nat, m: MessageId, h': Host)
    requires Inv(h) && Inv(h') && h' == Next(h, Reply(p)) && h' != h && m !in h'.tables.delivered
    ensures m !in h.tables.delivered && Unaccounted(h', m) == Unaccounted(h, m)
  {
    if m == h.pollers[p].todo[0] {
      HeadDecides(h, p);
      ReplyClears(h, p, h');
    } else {
      ReplyReplies(h, p, m, h');
      SameReplies(h, h', m);
    }
  }

  // Settling the head of a drain leaves no reply for it anywhere.
  lemma ReplyClears(h: Host, p: nat, h': Host)
    requires Inv(h) && h' == Next(h, Reply(p)) && h' != h
    ensures !SentUnrecorded(h', h.pollers[p].todo[0])
  {
    var m := h.pollers[p].todo[0];
    assert DrainOk(h, h.pollers[p]) && Queued(h, p, m);
    forall q
      ensures ReplyFor(h', q, m) == None
    {
      if q != p && Drains(h, q) && h.pollers[q].todo != [] && h.pollers[q].todo[0] == m {
        assert Queued(h, q, m);
        QueuedOnce(h, p, q, m);
      }
    }
  }

  lemma QuietBalance(h: Host, step: Step, m: MessageId, h': Host)
    requires Inv(h) && h' == Next(h, step) && (step.Append? || step.Tick? || step.Enter? || step.Leave? || step.Throw?)
    ensures h'.tables == h.tables && Unaccounted(h', m) == Unaccounted(h, m)
  {
    QuietFrame(h, step, h');
    forall p
      ensures ReplyFor(h, p, m) == ReplyFor(h', p, m)
    {
      QuietReplies(h, step, m, p);
    }
    SameReplies(h, h', m);
  }

  lemma BalanceStep(h: Host, step: Step, m: MessageId, h': Host)
    requires Inv(h) && h' == Next(h, step) && !step.Restart? && m !in h'.tables.delivered
    ensures m !in h.tables.delivered && Unaccounted(h', m) == Unaccounted(h, m)
  {
    NextKeepsInv(h, step);
    if h' != h {
      match step
      case Call(p, o) => CallBalance(h, p, o, m, h');
      case Reply(p) => ReplyBalance(h, p, m, h');
      case _ => QuietBalance(h, step, m, h');
    }
  }

  // While a process lives and m is not recorded, its acceptances are those an exception followed, and
  // the one about to be recorded if there is one.
  lemma {:induction false} AcceptancesOfALifetime(start: Host, steps: seq<Step>, m: MessageId, h: Host)
    requires Inv(start) && NoRestart(steps) && h == Run(start, steps) && m !in h.tables.delivered
    ensures m !in start.tables.delivered && Unaccounted(h, m) == Unaccounted(start, m)
    decreases |steps|
  {
    if steps != [] {
      var next := Next(start, steps[0]);
      assert !steps[0].Restart? && NoRestart(steps[1..]);
      NextKeepsInv(start, steps[0]);
      AcceptancesOfALifetime(next, steps[1..], m, h);
      BalanceStep(start, steps[0], m, next);
    }
  }

  // A process start: no poller yet.
  ghost predicate JustStarted(h: Host) { Inv(h) && h.pollers == map[] }

  lemma RestartStarts(h: Host)
    requires Inv(h)
    ensures JustStarted(Next(h, Restart))
  {
    NextKeepsInv(h, Restart);
  }

  // A call for m with this outcome reaches the adapter, which accepts.
  ghost predicate Accepts(h: Host, p: nat, o: Outcome, m: MessageId) {
    Drains(h, p) && h.pollers[p].todo != [] && h.pollers[p].todo[0] == m && h.pollers[p].reply == None
    && (o.Sent? || o.SentThenThrew?)
  }

  // One process lifetime: from its start, no further restart.
  lemma AcceptsAgainInProcess(start: Host, steps: seq<Step>, p: nat, o: Outcome, m: MessageId, h: Host)
    requires JustStarted(start) && NoRestart(steps) && h == Run(start, steps) && Accepts(h, p, o, m)
    ensures Count(Next(h, Call(p, o)).log.accepted, m) == Count(h.log.accepted, m) + 1
    ensures Count(h.log.faults, m) >= Count(start.log.faults, m)
    ensures Count(h.log.accepted, m) - Count(start.log.accepted, m)
            == Count(h.log.faults, m) - Count(start.log.faults, m)
  {
    RunKeepsInv(start, steps);
    HeadDecides(h, p);
    AcceptancesOfALifetime(start, steps, m, h);
    FaultsOnlyGrow(start, steps, m);
  }

  // The present process starts at step k: at the beginning of the run or behind its last restart.
  ghost predicate LastStart(steps: seq<Step>, k: nat) {
    k <= |steps| && (k > 0 ==> steps[k - 1].Restart?) && NoRestart(steps[k..])
  }

  lemma {:induction false} FindLastStart(steps: seq<Step>) returns (k: nat)
    ensures LastStart(steps, k)
    decreases |steps|
  {
    k := 0;
    if !NoRestart(steps[0..]) {
      var i :| 0 <= i < |steps| && steps[i].Restart?;
      var rest := FindLastStart(steps[i + 1..]);
      k := i + 1 + rest;
      assert steps[i + 1..][rest..] == steps[k..];
    }
  }

  lemma StartOfProcess(steps: seq<Step>, k: nat, start: Host)
    requires LastStart(steps, k) && start == Run(EMPTY, steps[..k])
    ensures JustStarted(start) && Run(start, steps[k..]) == Run(EMPTY, steps)
  {
    RunAppend(EMPTY, steps[..k], steps[k..]);
    assert steps[..k] + steps[k..] == steps;
    if k > 0 {
      RunAppend(EMPTY, steps[..k - 1], [Restart]);
      assert steps[..k] == steps[..k - 1] + [Restart];
      RunKeepsInv(EMPTY, steps[..k - 1]);
      RestartStarts(Run(EMPTY, steps[..k - 1]));
    }
  }

  // In every run: a call that the adapter accepts is a repeat if and only if an acceptance by an earlier
  // process was never recorded, or an exception followed an acceptance in this process, which started at
  // step k.
  lemma AcceptsAgainExactlyWhen(steps: seq<Step>, p: nat, o: Outcome, m: MessageId, h: Host)
    returns (k: nat, start: Host)
    requires h == Run(EMPTY, steps) && Accepts(h, p, o, m)
    ensures LastStart(steps, k) && start == Run(EMPTY, steps[..k])
    ensures Count(Next(h, Call(p, o)).log.accepted, m) == Count(h.log.accepted, m) + 1
    ensures Count(h.log.accepted, m) > 0
            <==> Count(start.log.accepted, m) > 0 || Count(h.log.faults, m) > Count(start.log.faults, m)
    ensures Count(h.log.accepted, m) - Count(start.log.accepted, m)
            == Count(h.log.faults, m) - Count(start.log.faults, m)
  {
    k := FindLastStart(steps);
    start := Run(EMPTY, steps[..k]);
    StartOfProcess(steps, k, start);
    AcceptsAgainInProcess(start, steps[k..], p, o, m, h);
  }

  lemma {:induction false} FaultsOnlyGrow(h: Host, steps: seq<Step>, m: MessageId)
    ensures Count(Run(h, steps).log.faults, m) >= Count(h.log.faults, m)
    decreases |steps|
  {
    if steps != [] {
      FaultsStep(h, steps[0], m);
      FaultsOnlyGrow(Next(h, steps[0]), steps[1..], m);
    }
  }

  lemma FaultsStep(h: Host, step: Step, m: MessageId)
    ensures Count(Next(h, step).log.faults, m) >= Count(h.log.faults, m)
  {
    match step
    case Call(_, _) =>
    case Reply(_) =>
    case Restart =>
    case _ => QuietFrame(h, step, Next(h, step));
  }

  // ---------------------------------------------------------------- runs that reach the bound

  // The one message m of session s waits, and nothing is under way.
  ghost predicate Waiting(h: Host, s: SessionId, m: MessageId) {
    h.outbox == map[s := [m]] && h.tables.delivered == map[] && h.inflight == {} && h.pollers == map[]
  }

  // One poll tick up to the adapter's answer.
  ghost function Poll(s: SessionId, o: Outcome): seq<Step> { [Tick(0, [s]), Enter(0), Call(0, o)] }

  lemma {:induction false} RunAppend(h: Host, a: seq<Step>, b: seq<Step>)
    ensures Run(h, a + b) == Run(Run(h, a), b)
    decreases |a|
  {
    if a == [] {
      assert a + b == b;
    } else {
      assert (a + b)[1..] == a[1..] + b;
      RunAppend(Next(h, a[0]), a[1..], b);
    }
  }

  lemma RunThree(h: Host, a: Step, b: Step, c: Step)
    ensures Run(h, [a, b, c]) == Next(Next(Next(h, a), b), c)
  {
    assert [a, b, c] == [a, b] + [c] && [c][1..] == [];
    RunTwo(h, a, b, [c]);
  }

  lemma EnterEffect(h: Host, s: SessionId, m: MessageId)
    requires Waiting(h, s, m)
    ensures Next(Next(h, Tick(0, [s])), Enter(0))
            == h.(inflight := {s}, pollers := map[0 := Draining(s, [m], None, [])])
  {
    var ticked := h.(pollers := map[0 := Walking([s])]);
    assert Next(h, Tick(0, [s])) == ticked;
    assert Due(ticked, s) == [m] && Undelivered([m], ticked.tables.delivered) == [m] && [s][1..] == [];
    assert ticked.pollers[0 := Draining(s, [m], None, [])] == map[0 := Draining(s, [m], None, [])];
  }

  ghost function Answered(h: Host, s: SessionId, m: MessageId, o: Outcome): Host {
    h.(inflight := {s}, pollers := map[0 := Draining(s, [m], Some(o), [])], log := Called(h.log, m, o))
  }

  lemma CallEffect(h: Host, s: SessionId, m: MessageId, o: Outcome)
    ensures Next(h.(inflight := {s}, pollers := map[0 := Draining(s, [m], None, [])]), Call(0, o))
            == Answered(h, s, m, o)
  {
    assert map[0 := Draining(s, [m], None, [])][0 := Draining(s, [m], Some(o), [])]
      == map[0 := Draining(s, [m], Some(o), [])];
  }

  lemma PollEffect(h: Host, s: SessionId, m: MessageId, o: Outcome)
    requires Waiting(h, s, m)
    ensures Run(h, Poll(s, o)) == Answered(h, s, m, o)
  {
    RunThree(h, Tick(0, [s]), Enter(0), Call(0, o));
    EnterEffect(h, s, m);
    CallEffect(h, s, m, o);
  }

  lemma ReplyEffect(h: Host, s: SessionId, m: MessageId, h1: Host)
    requires h1.pollers == map[0 := Draining(s, [m], Some(SentThenThrew), [])]
    requires Count(h1.tables.attempts, m) < 2
    ensures var raised := h1.tables.attempts[m := Count(h1.tables.attempts, m) + 1];
            Next(h1, Reply(0))
            == h1.(tables := h1.tables.(attempts := raised), pollers := map[0 := Draining(s, [], None, [])])
  {
    assert [m][1..] == [];
    assert map[0 := Draining(s, [m], Some(SentThenThrew), [])][0 := Draining(s, [], None, [])]
      == map[0 := Draining(s, [], None, [])];
  }

  lemma LeaveEffect(s: SessionId, h2: Host)
    requires h2.pollers == map[0 := Draining(s, [], None, [])] && h2.inflight == {s}
    ensures Next(Next(h2, Leave(0)), Enter(0)) == h2.(inflight := {}, pollers := map[])
  {
    var h3 := h2.(inflight := {}, pollers := map[0 := Walking([])]);
    assert map[0 := Draining(s, [], None, [])][0 := Walking([])] == map[0 := Walking([])];
    assert Next(h2, Leave(0)) == h3;
    assert h3.pollers - {0} == map[];
  }

  // The drain ends after an exception: the counter is raised, and the message waits again.
  lemma FaultEffect(h: Host, s: SessionId, m: MessageId, h': Host)
    requires Waiting(h, s, m) && Count(h.tables.attempts, m) < 2
    requires h' == Run(Run(h, Poll(s, SentThenThrew)), [Reply(0), Leave(0), Enter(0)])
    ensures Waiting(h', s, m) && Count(h'.tables.attempts, m) == Count(h.tables.attempts, m) + 1
    ensures h'.log.restarts == h.log.restarts
    ensures Count(h'.log.accepted, m) == Count(h.log.accepted, m) + 1
    ensures Count(h'.log.faults, m) == Count(h.log.faults, m) + 1
  {
    var h1 := Answered(h, s, m, SentThenThrew);
    PollEffect(h, s, m, SentThenThrew);
    RunThree(h1, Reply(0), Leave(0), Enter(0));
    ReplyEffect(h, s, m, h1);
    LeaveEffect(s, Next(h1, Reply(0)));
  }

  ghost function Faults(s: SessionId, n: nat): seq<Step>
    decreases n
  {
    if n == 0 then [] else Poll(s, SentThenThrew) + [Reply(0), Leave(0), Enter(0)] + Faults(s, n - 1)
  }

  lemma {:induction false} FaultsEffect(h: Host, s: SessionId, m: MessageId, n: nat, h': Host)
    requires Waiting(h, s, m) && Count(h.tables.attempts, m) + n <= 2 && h' == Run(h, Faults(s, n))
    ensures Waiting(h', s, m) && h'.log.restarts == h.log.restarts
    ensures Count(h'.log.accepted, m) == Count(h.log.accepted, m) + n
    ensures Count(h'.log.faults, m) == Count(h.log.faults, m) + n
    decreases n
  {
    if n > 0 {
      var one := Poll(s, SentThenThrew) + [Reply(0), Leave(0), Enter(0)];
      RunAppend(h, one, Faults(s, n - 1));
      RunAppend(h, Poll(s, SentThenThrew), [Reply(0), Leave(0), Enter(0)]);
      FaultEffect(h, s, m, Run(h, one));
      FaultsEffect(Run(h, one), s, m, n - 1, h');
    }
  }

  // A process that loses n records to exceptions and is then accepted once more, with no record yet.
  ghost function Lifetime(s: SessionId, n: nat): seq<Step> { Faults(s, n) + Poll(s, Sent) }

  // One process after another, each cut off before its last acceptance is recorded.
  ghost function Lifetimes(s: SessionId, faults: seq<nat>): seq<Step>
    requires faults != []
  {
    if |faults| == 1 then Lifetime(s, faults[0]) else Lifetime(s, faults[0]) + ([Restart] + Lifetimes(s, faults[1..]))
  }

  function Sum(ns: seq<nat>): nat { if ns == [] then 0 else ns[0] + Sum(ns[1..]) }

  lemma LifetimeEffect(h: Host, s: SessionId, m: MessageId, n: nat, h': Host)
    requires Waiting(h, s, m) && h.tables.attempts == map[] && n <= 2 && h' == Run(h, Lifetime(s, n))
    ensures h'.outbox == h.outbox && h'.tables.delivered == map[] && h'.log.restarts == h.log.restarts
    ensures Count(h'.log.accepted, m) == Count(h.log.accepted, m) + n + 1
    ensures Count(h'.log.faults, m) == Count(h.log.faults, m) + n
  {
    var h1 := Run(h, Faults(s, n));
    RunAppend(h, Faults(s, n), Poll(s, Sent));
    FaultsEffect(h, s, m, n, h1);
    PollEffect(h1, s, m, Sent);
  }

  lemma {:induction false} LifetimesEffect(h: Host, s: SessionId, m: MessageId, faults: seq<nat>, h': Host)
    requires Waiting(h, s, m) && h.tables.attempts == map[] && faults != []
    requires forall i :: 0 <= i < |faults| ==> faults[i] <= 2
    requires h' == Run(h, Lifetimes(s, faults))
    ensures h'.log.restarts == h.log.restarts + |faults| - 1
    ensures Count(h'.log.accepted, m) == Count(h.log.accepted, m) + |faults| + Sum(faults)
    ensures Count(h'.log.faults, m) == Count(h.log.faults, m) + Sum(faults)
    decreases |faults|
  {
    var h1 := Run(h, Lifetime(s, faults[0]));
    LifetimeEffect(h, s, m, faults[0], h1);
    if |faults| == 1 {
      assert faults[1..] == [];
    } else {
      var rest := Lifetimes(s, faults[1..]);
      RunAppend(h, Lifetime(s, faults[0]), [Restart] + rest);
      assert ([Restart] + rest)[1..] == rest;
      LifetimesEffect(Next(h1, Restart), s, m, faults[1..], h');
    }
  }

  // The bound is reached: for any number of processes, each losing up to two records to exceptions, some
  // run has 1 + restarts + faults acceptances of one message.
  lemma BoundIsReached(s: SessionId, m: MessageId, faults: seq<nat>, h: Host)
    requires faults != [] && forall i :: 0 <= i < |faults| ==> faults[i] <= 2
    requires h == Run(EMPTY, [Append(s, m)] + Lifetimes(s, faults))
    ensures h.log.restarts == |faults| - 1 && Count(h.log.faults, m) == Sum(faults)
    ensures Count(h.log.accepted, m) == 1 + h.log.restarts + Count(h.log.faults, m)
  {
    var h1 := Next(EMPTY, Append(s, m));
    assert Due(EMPTY, s) + [m] == [m];
    assert h1 == EMPTY.(outbox := map[s := [m]]);
    assert ([Append(s, m)] + Lifetimes(s, faults))[1..] == Lifetimes(s, faults);
    LifetimesEffect(h1, s, m, faults, h);
  }

  // Sent twice by one process: one exception between acceptance and record is enough.
  lemma SentTwiceWithoutRestart(s: SessionId, m: MessageId, h: Host)
    requires h == Run(EMPTY, [Append(s, m)] + Lifetimes(s, [1]))
    ensures Count(h.log.accepted, m) == 2 && h.log.restarts == 0
  {
    assert [1][1..] == [];
    assert Sum([1]) == 1;
    BoundIsReached(s, m, [1], h);
  }
}
