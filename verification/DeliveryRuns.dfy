// Every run of the delivery protocol: any number of poll loops, any interleaving at the awaits, any
// outcome of each adapter call, new messages at any time, and restarts that lose the memory.
module DeliveryRuns {
  import opened Wrappers
  import opened Delivery

  ghost predicate Drains(h: Host, p: nat) { p in h.pollers && h.pollers[p].Draining? }

  // m is waiting in the drain of p.
  ghost predicate Queued(h: Host, p: nat, m: MessageId) { Drains(h, p) && m in h.pollers[p].todo }

  // How the deliverMessage call for m made by p ended, while that is not yet recorded.
  ghost function ReplyFor(h: Host, p: nat, m: MessageId): Option<Outcome> {
    if Drains(h, p) && h.pollers[p].todo != [] && h.pollers[p].todo[0] == m then h.pollers[p].reply else None
  }

  ghost predicate SentUnrecorded(h: Host, m: MessageId) {
    exists p :: ReplyFor(h, p, m) == Some(Sent)
  }

  ghost predicate ThrownUnrecorded(h: Host, m: MessageId) {
    exists p :: ReplyFor(h, p, m).Some? && Threw(ReplyFor(h, p, m).value)
  }

  ghost predicate OutboxOk(h: Host) {
    && (forall s :: s in h.outbox ==> NoDuplicates(h.outbox[s]))
    && (forall s, t, m :: s in h.outbox && t in h.outbox && m in h.outbox[s] && m in h.outbox[t] ==> s == t)
  }

  ghost predicate DrainOk(h: Host, d: Poller)
    requires d.Draining?
  {
    && d.session in h.inflight
    && NoDuplicates(d.todo)
    && (d.reply.Some? ==> d.todo != [])
    && (forall m :: m in d.todo ==> m in Due(h, d.session) && m !in h.tables.delivered)
  }

  // At most one drain per session is active.
  ghost predicate OneDrainPerSession(h: Host) {
    forall p, q :: Drains(h, p) && Drains(h, q) && h.pollers[p].session == h.pollers[q].session ==> p == q
  }

  // No session stays locked after its drain ended.
  ghost predicate NoneLockedOut(h: Host) {
    forall s :: s in h.inflight ==> exists p :: Drains(h, p) && h.pollers[p].session == s
  }

  ghost predicate DrainsOk(h: Host) {
    && (forall p :: Drains(h, p) ==> DrainOk(h, h.pollers[p]))
    && OneDrainPerSession(h)
    && NoneLockedOut(h)
  }

  ghost predicate CountsOk(h: Host, m: MessageId) {
    && Count(h.log.accepted, m) <= h.log.restarts + Count(h.log.faults, m)
                               + (if m in h.tables.delivered || SentUnrecorded(h, m) then 1 else 0)
    && (m in h.tables.attempts ==> 1 <= h.tables.attempts[m] <= 2 && m !in h.tables.delivered && Known(h, m))
    && (m !in h.tables.delivered ==>
          Count(h.log.failures, m) == Count(h.tables.attempts, m) + (if ThrownUnrecorded(h, m) then 1 else 0))
    && Count(h.log.failures, m) <= MAX_DELIVERY_ATTEMPTS
    && Count(h.log.failures, m) <= Count(h.log.calls, m)
    && (m in h.tables.delivered && Count(h.log.failures, m) == MAX_DELIVERY_ATTEMPTS ==>
        h.tables.delivered[m] == FailedRow)
  }

  ghost predicate Inv(h: Host) {
    OutboxOk(h) && DrainsOk(h) && forall m :: CountsOk(h, m)
  }

  // Two drains never hold the same message: ids are unique across sessions and each session has at
  // most one drain.
  lemma QueuedOnce(h: Host, p: nat, q: nat, m: MessageId)
    requires OutboxOk(h) && DrainsOk(h) && Queued(h, p, m) && Queued(h, q, m)
    ensures p == q
  {
    assert m in Due(h, h.pollers[p].session) && m in Due(h, h.pollers[q].session);
  }

  lemma OutboxStep(h: Host, step: Step)
    requires OutboxOk(h)
    ensures OutboxOk(Next(h, step))
  {
    if step.Append? && !Known(h, step.id) {
      var h' := Next(h, step);
      forall s | s in h'.outbox
        ensures NoDuplicates(h'.outbox[s])
      {
        if s == step.s {
          assert forall i :: 0 <= i < |Due(h, s)| ==> Due(h, s)[i] in Due(h, s);
        }
      }
    }
  }

  lemma AppendDrains(h: Host, s: SessionId, id: MessageId)
    requires DrainsOk(h)
    ensures DrainsOk(Next(h, Append(s, id)))
  {
    var h' := Next(h, Append(s, id));
    forall q | Drains(h', q)
      ensures DrainOk(h', h'.pollers[q])
    {
      assert Drains(h, q) && DrainOk(h, h.pollers[q]);
    }
    assert forall q :: Drains(h, q) <==> Drains(h', q);
  }

  lemma TickDrains(h: Host, p: nat, sessions: seq<SessionId>)
    requires DrainsOk(h)
    ensures DrainsOk(Next(h, Tick(p, sessions)))
  {
    SameDrains(h, Next(h, Tick(p, sessions)));
  }

  lemma SameDrains(h: Host, h': Host)
    requires DrainsOk(h) && h'.tables == h.tables && h'.outbox == h.outbox && h'.inflight == h.inflight
    requires forall q :: Drains(h, q) <==> Drains(h', q)
    requires forall q :: Drains(h, q) ==> Drains(h', q) && h'.pollers[q] == h.pollers[q]
    ensures DrainsOk(h')
  {
    assert forall q :: Drains(h', q) ==> Drains(h, q);
    forall q | Drains(h', q)
      ensures DrainOk(h', h'.pollers[q])
    {
      assert DrainOk(h, h.pollers[q]);
    }
  }

  lemma DrainsStep(h: Host, step: Step)
    requires OutboxOk(h) && DrainsOk(h)
    ensures DrainsOk(Next(h, step))
  {
    match step
    case Append(s, id) => AppendDrains(h, s, id);
    case Tick(p, sessions) => TickDrains(h, p, sessions);
    case Enter(p) => EnterDrains(h, p);
    case Call(p, o) => CallDrains(h, p, o);
    case Reply(p) => ReplyDrains(h, p);
    case Leave(p) => LeaveDrains(h, step, p);
    case Throw(p) => LeaveDrains(h, step, p);
    case Restart =>
  }

  // Enter changes at most poller p, and only opens a drain of a session that has none.
  ghost predicate Opened(h: Host, h': Host, p: nat) {
    && h'.tables == h.tables && h'.outbox == h.outbox
    && (forall q :: q != p ==> (q in h'.pollers <==> q in h.pollers))
    && (forall q :: q != p && q in h.pollers ==> h'.pollers[q] == h.pollers[q])
    && (if Drains(h, p) then h' == h
        else if Drains(h', p) then
          var d := h'.pollers[p];
          d.session !in h.inflight && h'.inflight == h.inflight + {d.session} && DrainOk(h', d)
        else h'.inflight == h.inflight)
  }

  lemma EnterOpens(h: Host, p: nat)
    requires OutboxOk(h)
    ensures Opened(h, Next(h, Enter(p)), p)
  {
    var h' := Next(h, Enter(p));
    if p in h.pollers && h.pollers[p].Walking? && h.pollers[p].rest != [] && h.pollers[p].rest[0] !in h.inflight {
      var s := h.pollers[p].rest[0];
      var todo := Undelivered(Due(h, s), h.tables.delivered);
      assert h'.pollers[p] == Draining(s, todo, None, h.pollers[p].rest[1..]);
      UndeliveredAre(Due(h, s), h.tables.delivered, todo);
      assert NoDuplicates(Due(h, s));
      assert Due(h', s) == Due(h, s);
      assert DrainOk(h', h'.pollers[p]);
    }
  }

  lemma EnterDrains(h: Host, p: nat)
    requires DrainsOk(h) && OutboxOk(h)
    ensures DrainsOk(Next(h, Enter(p)))
  {
    EnterOpens(h, p);
    OpenedKeepsDrains(h, Next(h, Enter(p)), p);
  }

  lemma OpenedKeepsDrains(h: Host, h': Host, p: nat)
    requires DrainsOk(h) && Opened(h, h', p)
    ensures DrainsOk(h')
  {
    forall q | Drains(h', q)
      ensures DrainOk(h', h'.pollers[q])
    {
      if q != p || Drains(h, p) { assert Drains(h, q) && DrainOk(h, h.pollers[q]); }
    }
    forall q, r | Drains(h', q) && Drains(h', r) && h'.pollers[q].session == h'.pollers[r].session
      ensures q == r
    {
      if Drains(h, q) { assert DrainOk(h, h.pollers[q]); }
      if Drains(h, r) { assert DrainOk(h, h.pollers[r]); }
    }
    forall s | s in h'.inflight
      ensures exists q :: Drains(h', q) && h'.pollers[q].session == s
    {
      if s in h.inflight {
        var q :| Drains(h, q) && h.pollers[q].session == s;
        assert Drains(h', q) && h'.pollers[q] == h.pollers[q];
      } else {
        assert Drains(h', p) && h'.pollers[p].session == s;
      }
    }
  }

  lemma CallDrains(h: Host, p: nat, o: Outcome)
    requires DrainsOk(h)
    ensures DrainsOk(Next(h, Call(p, o)))
  {
    var h' := Next(h, Call(p, o));
    assert forall q :: Drains(h, q) <==> Drains(h', q);
    assert forall q :: Drains(h, q) ==>
      h'.pollers[q].session == h.pollers[q].session && h'.pollers[q].todo == h.pollers[q].todo;
  }

  lemma ReplyDrains(h: Host, p: nat)
    requires DrainsOk(h) && OutboxOk(h)
    ensures DrainsOk(Next(h, Reply(p)))
  {
    var h' := Next(h, Reply(p));
    assert forall q :: Drains(h, q) <==> Drains(h', q);
    assert forall q :: Drains(h, q) ==> h'.pollers[q].session == h.pollers[q].session;
    forall q | Drains(h', q)
      ensures DrainOk(h', h'.pollers[q])
    {
      ReplyDrain(h, p, q);
    }
  }

  lemma ReplyDrain(h: Host, p: nat, q: nat)
    requires DrainsOk(h) && OutboxOk(h) && Drains(h, q)
    ensures Drains(Next(h, Reply(p)), q) && DrainOk(Next(h, Reply(p)), Next(h, Reply(p)).pollers[q])
  {
    var h' := Next(h, Reply(p));
    assert DrainOk(h, h.pollers[q]);
    if h' != h {
      var id := h.pollers[p].todo[0];
      assert DrainOk(h, h.pollers[p]) && Queued(h, p, id);
      forall m | m in h'.pollers[q].todo
        ensures m in Due(h', h'.pollers[q].session) && m !in h'.tables.delivered
      {
        assert Queued(h, q, m);
        if m == id {
          QueuedOnce(h, p, q, m);
          assert false;
        }
      }
    }
  }

  lemma LeaveDrains(h: Host, step: Step, p: nat)
    requires DrainsOk(h) && (step == Leave(p) || step == Throw(p))
    ensures DrainsOk(Next(h, step))
  {
    var h' := Next(h, step);
    if h' != h {
      forall q | Drains(h', q)
        ensures Drains(h, q) && DrainOk(h', h'.pollers[q]) && h'.pollers[q] == h.pollers[q]
      {
        assert q != p && h'.pollers[q] == h.pollers[q];
      }
      forall s | s in h'.inflight
        ensures exists q :: Drains(h', q) && h'.pollers[q].session == s
      {
        var q :| Drains(h, q) && h.pollers[q].session == s;
        assert q != p && Drains(h', q) && h'.pollers[q] == h.pollers[q];
      }
    }
  }

  // ---------------------------------------------------------------- counts

  // The head of a drain decides both flags for its message.
  lemma HeadDecides(h: Host, p: nat)
    requires OutboxOk(h) && DrainsOk(h) && Drains(h, p) && h.pollers[p].todo != []
    ensures var m, r := h.pollers[p].todo[0], h.pollers[p].reply;
            && (SentUnrecorded(h, m) <==> r == Some(Sent))
            && (ThrownUnrecorded(h, m) <==> r.Some? && Threw(r.value))
            && m !in h.tables.delivered && Known(h, m)
  {
    var m := h.pollers[p].todo[0];
    assert DrainOk(h, h.pollers[p]);
    assert Queued(h, p, m);
    assert ReplyFor(h, p, m) == h.pollers[p].reply;
    forall q | ReplyFor(h, q, m).Some?
      ensures q == p
    {
      assert Queued(h, q, m);
      QueuedOnce(h, p, q, m);
    }
  }

  lemma SameReplies(h: Host, h': Host, m: MessageId)
    requires forall p :: ReplyFor(h, p, m) == ReplyFor(h', p, m)
    ensures SentUnrecorded(h, m) <==> SentUnrecorded(h', m)
    ensures ThrownUnrecorded(h, m) <==> ThrownUnrecorded(h', m)
  {
    assert forall p :: ReplyFor(h', p, m) == ReplyFor(h, p, m);
  }

  // Counts follow from the flags and the counters alone.
  lemma CallOfHead(h: Host, h': Host, id: MessageId, o: Outcome)
    requires CountsOk(h, id) && id !in h.tables.delivered && !SentUnrecorded(h, id) && !ThrownUnrecorded(h, id)
    requires h'.tables == h.tables && h'.log == Called(h.log, id, o) && (Known(h, id) ==> Known(h', id))
    requires (SentUnrecorded(h', id) <==> o.Sent?) && (ThrownUnrecorded(h', id) <==> Threw(o))
    ensures CountsOk(h', id)
  {
  }

  lemma SameCounts(h: Host, h': Host, m: MessageId)
    requires CountsOk(h, m) && h'.tables == h.tables
    requires h'.log.restarts == h.log.restarts && (Known(h, m) ==> Known(h', m))
    requires Count(h'.log.accepted, m) == Count(h.log.accepted, m) && Count(h'.log.faults, m) == Count(h.log.faults, m)
    requires Count(h'.log.calls, m) == Count(h.log.calls, m) && Count(h'.log.failures, m) == Count(h.log.failures, m)
    requires forall p :: ReplyFor(h, p, m) == ReplyFor(h', p, m)
    ensures CountsOk(h', m)
  {
    SameReplies(h, h', m);
  }

  lemma CallHeadCounts(h: Host, h': Host, p: nat, o: Outcome, id: MessageId)
    requires OutboxOk(h) && DrainsOk(h) && CountsOk(h, id) && OutboxOk(h') && DrainsOk(h')
    requires h' == Next(h, Call(p, o)) && h' != h && id == h.pollers[p].todo[0]
    ensures CountsOk(h', id)
  {
    KnownSame(h, h', id);
    HeadDecides(h, p);
    HeadDecides(h', p);
    CallOfHead(h, h', id, o);
  }

  lemma CallOtherReplies(h: Host, h': Host, p: nat, o: Outcome, m: MessageId)
    requires h' == Next(h, Call(p, o)) && h' != h && m != h.pollers[p].todo[0]
    ensures forall q :: ReplyFor(h, q, m) == ReplyFor(h', q, m)
  {
  }

  lemma CallOtherCounts(h: Host, h': Host, p: nat, o: Outcome, m: MessageId)
    requires CountsOk(h, m) && h' == Next(h, Call(p, o)) && h' != h && m != h.pollers[p].todo[0]
    ensures CountsOk(h', m)
  {
    KnownSame(h, h', m);
    CallOtherReplies(h, h', p, o, m);
    SameCounts(h, h', m);
  }

  lemma CallCounts(h: Host, h': Host, p: nat, o: Outcome, m: MessageId)
    requires OutboxOk(h) && DrainsOk(h) && CountsOk(h, m)
    requires h' == Next(h, Call(p, o)) && h' != h && OutboxOk(h') && DrainsOk(h')
    ensures CountsOk(h', m)
  {
    if m == h.pollers[p].todo[0] {
      CallHeadCounts(h, h', p, o, m);
    } else {
      CallOtherCounts(h, h', p, o, m);
    }
  }

  lemma KnownSame(h: Host, h': Host, m: MessageId)
    requires h.outbox == h'.outbox
    ensures Known(h, m) <==> Known(h', m)
  {
  }

  lemma ReplyCounts(h: Host, p: nat, m: MessageId)
    requires OutboxOk(h) && DrainsOk(h) && CountsOk(h, m) && DrainsOk(Next(h, Reply(p)))
    ensures CountsOk(Next(h, Reply(p)), m)
  {
    var h' := Next(h, Reply(p));
    if h' != h {
      var id := h.pollers[p].todo[0];
      HeadDecides(h, p);
      KnownSame(h, h', m);
      assert DrainOk(h, h.pollers[p]);
      assert Queued(h, p, id);
      forall q
        ensures ReplyFor(h', q, m) == if m == id then None else ReplyFor(h, q, m)
      {
        if m == id && q != p && Drains(h, q) && h.pollers[q].todo != [] && h.pollers[q].todo[0] == m {
          assert Queued(h, q, id);
          QueuedOnce(h, p, q, id);
        }
      }
      if m != id { SameReplies(h, h', m); }
    }
  }

  lemma QuietReplies(h: Host, step: Step, m: MessageId, p: nat)
    requires DrainsOk(h)
    requires step.Append? || step.Tick? || step.Enter? || step.Leave? || step.Throw?
    ensures ReplyFor(h, p, m) == ReplyFor(Next(h, step), p, m)
  {
    if Drains(h, p) { assert DrainOk(h, h.pollers[p]); }
  }

  lemma QuietKnown(h: Host, step: Step, m: MessageId)
    requires Known(h, m) && (step.Append? || step.Tick? || step.Enter? || step.Leave? || step.Throw?)
    ensures Known(Next(h, step), m)
  {
    var s :| s in h.outbox && m in h.outbox[s];
    assert s in Next(h, step).outbox && m in Next(h, step).outbox[s];
  }

  lemma QuietCounts(h: Host, step: Step, h': Host, m: MessageId)
    requires DrainsOk(h) && CountsOk(h, m) && h' == Next(h, step)
    requires step.Append? || step.Tick? || step.Enter? || step.Leave? || step.Throw?
    ensures CountsOk(h', m)
  {
    forall p
      ensures ReplyFor(h, p, m) == ReplyFor(h', p, m)
    {
      QuietReplies(h, step, m, p);
    }
    if Known(h, m) { QuietKnown(h, step, m); }
    QuietFrame(h, step, h');
    SameCounts(h, h', m);
  }

  ghost predicate SameRecords(h: Host, h': Host) { h'.tables == h.tables && h'.log == h.log }

  lemma EnterFrame(h: Host, p: nat, h': Host)
    requires h' == Next(h, Enter(p))
    ensures SameRecords(h, h')
  {
    if p in h.pollers && h.pollers[p].Walking? {
      var rest := h.pollers[p].rest;
      if rest != [] && rest[0] !in h.inflight {
        var todo := Undelivered(Due(h, rest[0]), h.tables.delivered);
        assert h' == h.(inflight := h.inflight + {rest[0]},
                        pollers := h.pollers[p := Draining(rest[0], todo, None, rest[1..])]);
      }
    }
  }

  lemma QuietFrame(h: Host, step: Step, h': Host)
    requires h' == Next(h, step) && (step.Append? || step.Tick? || step.Enter? || step.Leave? || step.Throw?)
    ensures SameRecords(h, h')
  {
    match step
    case Append(s, id) => assert SameRecords(h, Next(h, Append(s, id)));
    case Tick(p, sessions) => assert SameRecords(h, Next(h, Tick(p, sessions)));
    case Enter(p) => EnterFrame(h, p, h');
    case Leave(p) => assert SameRecords(h, Next(h, Leave(p)));
    case Throw(p) => assert SameRecords(h, Next(h, Throw(p)));
  }

  lemma NextKeepsInv(h: Host, step: Step)
    requires Inv(h)
    ensures Inv(Next(h, step))
  {
    OutboxStep(h, step);
    DrainsStep(h, step);
    forall m
      ensures CountsOk(Next(h, step), m)
    {
      assert CountsOk(h, m);
      match step
      case Call(p, o) => if Next(h, step) != h { CallCounts(h, Next(h, step), p, o, m); }
      case Reply(p) => ReplyCounts(h, p, m);
      case Restart =>
      case _ => QuietCounts(h, step, Next(h, step), m);
    }
  }

  lemma {:induction false} RunKeepsInv(h: Host, steps: seq<Step>)
    requires Inv(h)
    ensures Inv(Run(h, steps))
    decreases |steps|
  {
    if steps != [] {
      NextKeepsInv(h, steps[0]);
      RunKeepsInv(Next(h, steps[0]), steps[1..]);
    }
  }

  // ---------------------------------------------------------------- main results

  // One drain per session, and none locked out, in every interleaving.
  lemma OneDrainAtATime(steps: seq<Step>)
    ensures OneDrainPerSession(Run(EMPTY, steps)) && NoneLockedOut(Run(EMPTY, steps))
  {
    RunKeepsInv(EMPTY, steps);
  }

  // The adapter accepts a message at most once, plus once per restart, plus once per exception that
  // hit between an acceptance and its record.
  lemma AcceptedAtMostOnce(steps: seq<Step>, m: MessageId)
    ensures var h := Run(EMPTY, steps); Count(h.log.accepted, m) <= 1 + h.log.restarts + Count(h.log.faults, m)
  {
    RunKeepsInv(EMPTY, steps);
    assert CountsOk(Run(EMPTY, steps), m);
  }

  // Stored counters are 1 or 2 and belong to unsettled messages of some session; a message throws at
  // most three times per process lifetime, and a third throw means it is recorded failed.
  lemma AttemptsAreBounded(steps: seq<Step>, m: MessageId)
    ensures var h := Run(EMPTY, steps);
            && (m in h.tables.attempts ==> 1 <= h.tables.attempts[m] <= 2 && m !in h.tables.delivered && Known(h, m))
            && Count(h.log.failures, m) <= MAX_DELIVERY_ATTEMPTS
            && (Count(h.log.failures, m) == MAX_DELIVERY_ATTEMPTS ==>
                  ThrownUnrecorded(h, m) || (m in h.tables.delivered && h.tables.delivered[m] == FailedRow))
  {
    RunKeepsInv(EMPTY, steps);
    assert CountsOk(Run(EMPTY, steps), m);
  }

  ghost predicate NoRestart(steps: seq<Step>) {
    forall i :: 0 <= i < |steps| ==> !steps[i].Restart?
  }

  lemma SettleKeepsRows(t: Tables, id: MessageId, o: Outcome, m: MessageId)
    requires m in t.delivered
    ensures m in Settle(t, id, o).delivered && Settle(t, id, o).delivered[m] == t.delivered[m]
  {
  }

  ghost predicate StaysSettled(h: Host, h': Host, m: MessageId)
    requires m in h.tables.delivered
  {
    m in h'.tables.delivered && h'.tables.delivered[m] == h.tables.delivered[m]
      && Count(h'.log.accepted, m) == Count(h.log.accepted, m)
  }

  lemma SettledCall(h: Host, p: nat, o: Outcome, m: MessageId, h': Host)
    requires Inv(h) && m in h.tables.delivered && h' == Next(h, Call(p, o))
    ensures StaysSettled(h, h', m) && Count(h'.log.calls, m) == Count(h.log.calls, m)
  {
    if h' != h { HeadDecides(h, p); }
  }

  lemma SettledReply(h: Host, p: nat, m: MessageId, h': Host)
    requires m in h.tables.delivered && h' == Next(h, Reply(p))
    ensures StaysSettled(h, h', m) && Count(h'.log.calls, m) == Count(h.log.calls, m)
  {
    if p in h.pollers && h.pollers[p].Draining? && h.pollers[p].todo != [] && h.pollers[p].reply.Some? {
      SettleKeepsRows(h.tables, h.pollers[p].todo[0], h.pollers[p].reply.value, m);
    }
  }

  lemma SettledStep(h: Host, step: Step, m: MessageId)
    requires Inv(h) && m in h.tables.delivered
    ensures StaysSettled(h, Next(h, step), m)
    ensures !step.Restart? ==> Count(Next(h, step).log.calls, m) == Count(h.log.calls, m)
    ensures step.Restart? ==> Count(Next(h, step).log.calls, m) == 0
  {
    match step
    case Call(p, o) => SettledCall(h, p, o, m, Next(h, step));
    case Reply(p) => SettledReply(h, p, m, Next(h, step));
    case Restart =>
    case _ => QuietFrame(h, step, Next(h, step));
  }

  // A message recorded delivered or failed is never attempted again, in this process or a later one,
  // and its record never changes.
  lemma {:induction false} SettledIsFinal(h: Host, steps: seq<Step>, m: MessageId)
    requires Inv(h) && m in h.tables.delivered
    ensures var h' := Run(h, steps);
            && StaysSettled(h, h', m)
            && Count(h'.log.calls, m) == if NoRestart(steps) then Count(h.log.calls, m) else 0
    decreases |steps|
  {
    if steps != [] {
      NextKeepsInv(h, steps[0]);
      SettledStep(h, steps[0], m);
      SettledIsFinal(Next(h, steps[0]), steps[1..], m);
      if NoRestart(steps) { assert NoRestart(steps[1..]) && !steps[0].Restart?; }
    }
  }

  // A message becomes recorded as failed exactly when its third throw of this process is counted.
  lemma FailedOnThirdThrow(h: Host, step: Step, m: MessageId)
    requires Inv(h) && m !in h.tables.delivered
    ensures var h' := Next(h, step);
            m in h'.tables.delivered && h'.tables.delivered[m] == FailedRow
            <==> step.Reply? && ThrownUnrecorded(h, m) && ReplyFor(h, step.p, m).Some?
                 && Count(h.log.failures, m) == MAX_DELIVERY_ATTEMPTS
  {
    assert CountsOk(h, m);
    if step.Reply? && Next(h, step) != h {
      HeadDecides(h, step.p);
    }
  }

  // The adapter refuses every call for m: after k calls in this process it is unsettled with counter k
  // for k < 3, and recorded failed at k = 3, never called again.
  lemma AlwaysRefused(steps: seq<Step>, m: MessageId)
    requires var h := Run(EMPTY, steps); Count(h.log.failures, m) == Count(h.log.calls, m) && !ThrownUnrecorded(h, m)
    ensures var h := Run(EMPTY, steps);
            && Count(h.log.calls, m) <= 3
            && (m !in h.tables.delivered ==> Count(h.log.calls, m) == Count(h.tables.attempts, m) <= 2)
            && (Count(h.log.calls, m) == 3 ==> m in h.tables.delivered && h.tables.delivered[m] == FailedRow)
  {
    RunKeepsInv(EMPTY, steps);
    assert CountsOk(Run(EMPTY, steps), m);
  }

  lemma RunTwo(h: Host, a: Step, b: Step, rest: seq<Step>)
    ensures Run(h, [a, b] + rest) == Run(Next(Next(h, a), b), rest)
  {
    assert ([a, b] + rest)[1..] == [b] + rest;
    assert ([b] + rest)[1..] == rest;
  }
}
