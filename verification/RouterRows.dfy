// Which rows a fan-out writes, for which wirings and to which sessions, whatever other code does to the
// sessions meanwhile.
module RouterRows {
  import opened Wrappers
  import opened SessionManager
  import opened Router

  // ---------------------------------------------------------------- the turns of a fan-out

  // One turn and what other code does at its await.
  function TurnOver(o: Outcome, w: Wiring, m: Message, chat: Chat, adapter: Option<Adapter>,
                    calls: seq<Call>): Outcome {
    var turn := FanOutOne(o, w, m, chat, adapter);
    turn.(store := Run(turn.store, calls))
  }

  lemma {:induction false} FanOutSnoc(o: Outcome, wirings: seq<Wiring>, w: Wiring, m: Message, chat: Chat,
                                      adapter: Option<Adapter>, meanwhile: seq<seq<Call>>, calls: seq<Call>)
    requires |meanwhile| == |wirings|
    ensures FanOut(o, wirings + [w], m, chat, adapter, meanwhile + [calls])
            == TurnOver(FanOut(o, wirings, m, chat, adapter, meanwhile), w, m, chat, adapter, calls)
    decreases |wirings|
  {
    if wirings == [] {
      assert wirings + [w] == [w] && meanwhile + [calls] == [calls] && [w][1..] == [] && [calls][1..] == [];
    } else {
      assert (wirings + [w])[1..] == wirings[1..] + [w] && (meanwhile + [calls])[1..] == meanwhile[1..] + [calls];
      FanOutSnoc(TurnOver(o, wirings[0], m, chat, adapter, meanwhile[0]), wirings[1..], w, m, chat, adapter,
                 meanwhile[1..], calls);
    }
  }

  // The tally before the turn of wiring k.
  function BeforeTurn(s: Store, wirings: seq<Wiring>, m: Message, chat: Chat, adapter: Option<Adapter>,
                      meanwhile: seq<seq<Call>>, k: nat): Outcome
    requires |meanwhile| == |wirings| && k <= |wirings|
  {
    FanOut(Start(s), wirings[..k], m, chat, adapter, meanwhile[..k])
  }

  lemma NextTurn(s: Store, wirings: seq<Wiring>, m: Message, chat: Chat, adapter: Option<Adapter>,
                 meanwhile: seq<seq<Call>>, k: nat)
    requires |meanwhile| == |wirings| && k < |wirings|
    ensures BeforeTurn(s, wirings, m, chat, adapter, meanwhile, k + 1)
            == TurnOver(BeforeTurn(s, wirings, m, chat, adapter, meanwhile, k), wirings[k], m, chat, adapter,
                        meanwhile[k])
  {
    assert wirings[..k + 1] == wirings[..k] + [wirings[k]] && meanwhile[..k + 1] == meanwhile[..k] + [meanwhile[k]];
    FanOutSnoc(Start(s), wirings[..k], wirings[k], m, chat, adapter, meanwhile[..k], meanwhile[k]);
  }

  // What each wiring is decided to do at its own turn, and the sessions before and after it.
  datatype TurnOf = TurnOf(decision: Decision, before: Store, after: Store)

  function TurnAt(s: Store, wirings: seq<Wiring>, m: Message, chat: Chat, adapter: Option<Adapter>,
                  meanwhile: seq<seq<Call>>, k: nat): TurnOf
    requires |meanwhile| == |wirings| && k < |wirings|
  {
    var o := BeforeTurn(s, wirings, m, chat, adapter, meanwhile, k);
    var after := FanOutOne(o, wirings[k], m, chat, adapter);
    TurnOf(Decide(wirings[k], m, chat, adapter, o.store.rows), o.store, after.store)
  }

  ghost predicate TurnsAre(s: Store, wirings: seq<Wiring>, m: Message, chat: Chat, adapter: Option<Adapter>,
                           meanwhile: seq<seq<Call>>, turns: seq<TurnOf>)
    requires |meanwhile| == |wirings|
  {
    && |turns| == |wirings|
    && forall k :: 0 <= k < |wirings| ==> turns[k] == TurnAt(s, wirings, m, chat, adapter, meanwhile, k)
  }

  // ---------------------------------------------------------------- the session of a row

  // The thread of the session that a message belongs to: its own in the groups of a threaded adapter and
  // for a per-thread wiring, none otherwise, and none where the adapter has no threads.
  function SessionThread(w: Wiring, m: Message, chat: Chat, adapter: Option<Adapter>): Option<string> {
    if adapter.Some? && !adapter.value.supportsThreads then None
    else if w.sessionMode == PerThread || (adapter.Some? && chat.isGroup) then m.thread
    else None
  }

  // A session that messages of the chat and thread for the wiring go to.
  ghost predicate Belongs(r: Row, w: Wiring, chat: Chat, thread: Option<string>) {
    r.active && r.agent == w.agent
    && (w.sessionMode == AgentShared || (r.chat == Some(chat.id) && r.thread == thread))
  }

  ghost predicate NewestOf(r: Row, rows: seq<Row>, agent: string) {
    forall j :: 0 <= j < |rows| && rows[j].active && rows[j].agent == agent ==> rows[j].createdAt <= r.createdAt
  }

  // Session id is the right one: if one was there it is such a one, the newest for an agent-shared wiring,
  // and no session is made; otherwise it is the one new session. A lookup with the empty thread is one
  // with no thread, and one in a chat without id finds nothing.
  ghost predicate RightSession(id: nat, w: Wiring, chat: Chat, thread: Option<string>, before: Store, after: Store) {
    var sought := if thread == Some("") then None else thread;
    if (w.sessionMode == AgentShared || chat.id != "")
       && exists j :: 0 <= j < |before.rows| && Belongs(before.rows[j], w, chat, sought) then
      after == before
      && exists i :: 0 <= i < |before.rows| && before.rows[i].id == id && Belongs(before.rows[i], w, chat, sought)
                     && (w.sessionMode == AgentShared ==> NewestOf(before.rows[i], before.rows, w.agent))
    else
      && |after.rows| == |before.rows| + 1 && before.rows <= after.rows && after.nextId == id + 1 == before.nextId + 1
      && after.rows[|before.rows|].id == id && Belongs(after.rows[|before.rows|], w, chat, thread)
  }

  lemma SharedResolve(s: Store, w: Wiring, m: Message, chat: Chat, thread: Option<string>, r: Resolved, s': Store)
    requires w.sessionMode == AgentShared && (r, s') == Resolve(s, w.agent, Some(chat.id), thread, AgentShared, m.now)
    ensures RightSession(r.session.id, w, chat, thread, s, s')
  {
    if !r.created {
      var i :| 0 <= i < |s.rows| && s.rows[i] == r.session;
      assert Belongs(s.rows[i], w, chat, None) && NewestOf(s.rows[i], s.rows, w.agent);
      assert Belongs(s.rows[i], w, chat, thread);
    }
  }

  lemma KeyedResolve(s: Store, w: Wiring, m: Message, chat: Chat, mode: SessionMode, thread: Option<string>,
                     key: Option<string>, r: Resolved, s': Store)
    requires w.sessionMode != AgentShared && mode != AgentShared && key == (if mode == PerThread then thread else None)
    requires (r, s') == Resolve(s, w.agent, Some(chat.id), thread, mode, m.now)
    ensures RightSession(r.session.id, w, chat, key, s, s')
  {
    var sought := if key == Some("") then None else key;
    if !r.created {
      var i :| 0 <= i < |s.rows| && s.rows[i] == r.session;
      assert Belongs(s.rows[i], w, chat, sought);
    } else if chat.id != "" {
      forall j | 0 <= j < |s.rows|
        ensures !Belongs(s.rows[j], w, chat, sought)
      {
        assert Belongs(s.rows[j], w, chat, sought) ==> Keyed(s.rows[j], w.agent, chat.id, sought);
      }
    }
  }

  lemma TurnResolves(o: Outcome, w: Wiring, m: Message, chat: Chat, adapter: Option<Adapter>, r: Resolved, s': Store)
    requires var mode := EffectiveMode(w, chat, adapter);
             (r, s') == Resolve(o.store, w.agent, Some(chat.id), EventThread(m, adapter), mode, m.now)
    ensures RightSession(r.session.id, w, chat, SessionThread(w, m, chat, adapter), o.store, s')
  {
    var mode := EffectiveMode(w, chat, adapter);
    if w.sessionMode == AgentShared {
      SharedResolve(o.store, w, m, chat, EventThread(m, adapter), r, s');
      AnyThread(r.session.id, w, chat, EventThread(m, adapter), SessionThread(w, m, chat, adapter), o.store, s');
    } else {
      KeyedResolve(o.store, w, m, chat, mode, EventThread(m, adapter), SessionThread(w, m, chat, adapter), r, s');
    }
  }

  // For an agent-shared wiring the thread does not matter.
  lemma AnyThread(id: nat, w: Wiring, chat: Chat, t: Option<string>, u: Option<string>, s: Store, s': Store)
    requires w.sessionMode == AgentShared && RightSession(id, w, chat, t, s, s')
    ensures RightSession(id, w, chat, u, s, s')
  {
    var st := if t == Some("") then None else t;
    var su := if u == Some("") then None else u;
    assert forall i :: 0 <= i < |s.rows| ==> (Belongs(s.rows[i], w, chat, st) <==> Belongs(s.rows[i], w, chat, su));
  }

  // ---------------------------------------------------------------- rows and counts

  function Times(turns: seq<TurnOf>, d: Decision, k: nat): nat
    requires k <= |turns|
  {
    if k == 0 then 0 else Times(turns, d, k - 1) + (if turns[k - 1].decision == d then 1 else 0)
  }

  // The row was written by this wiring in this turn: to wake its agent or as silent context, as decided,
  // past the command gate, and to the right session.
  ghost predicate WrittenFor(row: (nat, string, bool), w: Wiring, m: Message, chat: Chat, adapter: Option<Adapter>,
                             turn: TurnOf) {
    && w.agent == row.1 && w.agent !in m.commandDropped && turn.decision == (if row.2 then Wake else StoreSilently)
    && RightSession(row.0, w, chat, SessionThread(w, m, chat, adapter), turn.before, turn.after)
  }

  // at[i] is the wiring that wrote row i: rows come in the order of the wirings, at most one from each,
  // and every wiring that is not ignored and not stopped by the command gate has written one.
  ghost predicate Traced(rows: seq<(nat, string, bool)>, at: seq<nat>, wirings: seq<Wiring>, m: Message, chat: Chat,
                         adapter: Option<Adapter>, turns: seq<TurnOf>, n: nat)
    requires n <= |wirings| == |turns|
  {
    && |at| == |rows|
    && (forall i, j :: 0 <= i < j < |at| ==> at[i] < at[j])
    && (forall i :: 0 <= i < |at| ==> at[i] < n && WrittenFor(rows[i], wirings[at[i]], m, chat, adapter, turns[at[i]]))
    && (forall k :: 0 <= k < n && turns[k].decision != Ignore && wirings[k].agent !in m.commandDropped ==> k in at)
  }

  // A threaded adapter that can subscribe is asked to, for a thread of a group.
  ghost predicate AsksToSubscribe(w: Wiring, m: Message, chat: Chat, adapter: Option<Adapter>) {
    w.engage == MentionSticky && chat.isGroup && m.thread != None && adapter == Some(Adapter(true, true))
  }

  // The counters are the numbers of decisions of each kind; one subscribe, exactly if some waking wiring asks for it.
  ghost predicate Counted(o: Outcome, wirings: seq<Wiring>, m: Message, chat: Chat, adapter: Option<Adapter>,
                          turns: seq<TurnOf>, n: nat)
    requires n <= |wirings| == |turns|
  {
    && o.engaged == Times(turns, Wake, n) && o.accumulated == Times(turns, StoreSilently, n)
    && o.subscribed <= 1
    && (o.subscribed == 1
        <==> exists k :: 0 <= k < n && turns[k].decision == Wake && AsksToSubscribe(wirings[k], m, chat, adapter))
  }

  lemma TurnWrites(o: Outcome, w: Wiring, m: Message, chat: Chat, adapter: Option<Adapter>, turn: TurnOf)
    returns (rows: seq<(nat, string, bool)>)
    requires turn == TurnOf(Decide(w, m, chat, adapter, o.store.rows), o.store, FanOutOne(o, w, m, chat, adapter).store)
    ensures FanOutOne(o, w, m, chat, adapter).written == o.written + rows
    ensures if turn.decision == Ignore || w.agent in m.commandDropped then rows == []
            else |rows| == 1 && WrittenFor(rows[0], w, m, chat, adapter, turn)
  {
    rows := [];
    if turn.decision != Ignore {
      var mode := EffectiveMode(w, chat, adapter);
      var (r, s') := Resolve(o.store, w.agent, Some(chat.id), EventThread(m, adapter), mode, m.now);
      TurnResolves(o, w, m, chat, adapter, r, s');
      if w.agent !in m.commandDropped { rows := [(r.session.id, w.agent, turn.decision == Wake)]; }
    }
  }

  lemma TraceSame(rows: seq<(nat, string, bool)>, at: seq<nat>, wirings: seq<Wiring>, m: Message, chat: Chat,
                  adapter: Option<Adapter>, turns: seq<TurnOf>, n: nat)
    requires n < |wirings| == |turns| && Traced(rows, at, wirings, m, chat, adapter, turns, n)
    requires turns[n].decision == Ignore || wirings[n].agent in m.commandDropped
    ensures Traced(rows, at, wirings, m, chat, adapter, turns, n + 1)
  {
  }

  lemma TraceMore(rows: seq<(nat, string, bool)>, row: (nat, string, bool), at: seq<nat>, wirings: seq<Wiring>,
                  m: Message, chat: Chat, adapter: Option<Adapter>, turns: seq<TurnOf>, n: nat)
    requires n < |wirings| == |turns| && Traced(rows, at, wirings, m, chat, adapter, turns, n)
    requires WrittenFor(row, wirings[n], m, chat, adapter, turns[n])
    ensures Traced(rows + [row], at + [n], wirings, m, chat, adapter, turns, n + 1)
  {
    forall k | 0 <= k < n + 1 && turns[k].decision != Ignore && wirings[k].agent !in m.commandDropped
      ensures k in at + [n]
    {
      assert k == n || k in at;
    }
  }

  lemma TurnTraced(o: Outcome, at: seq<nat>, wirings: seq<Wiring>, m: Message, chat: Chat, adapter: Option<Adapter>,
                   turns: seq<TurnOf>, n: nat)
    returns (at': seq<nat>)
    requires n < |wirings| == |turns|
    requires turns[n] == TurnOf(Decide(wirings[n], m, chat, adapter, o.store.rows), o.store,
                                FanOutOne(o, wirings[n], m, chat, adapter).store)
    requires Traced(o.written, at, wirings, m, chat, adapter, turns, n)
    ensures Traced(FanOutOne(o, wirings[n], m, chat, adapter).written, at', wirings, m, chat, adapter, turns, n + 1)
  {
    var rows := TurnWrites(o, wirings[n], m, chat, adapter, turns[n]);
    if rows == [] {
      at' := at;
      assert o.written + rows == o.written;
      TraceSame(o.written, at, wirings, m, chat, adapter, turns, n);
    } else {
      at' := at + [n];
      assert rows == [rows[0]];
      TraceMore(o.written, rows[0], at, wirings, m, chat, adapter, turns, n);
    }
  }

  lemma TurnCounted(o: Outcome, o': Outcome, wirings: seq<Wiring>, m: Message, chat: Chat, adapter: Option<Adapter>,
                    turns: seq<TurnOf>, n: nat)
    requires n < |wirings| == |turns| && o' == FanOutOne(o, wirings[n], m, chat, adapter)
    requires turns[n].decision == Decide(wirings[n], m, chat, adapter, o.store.rows)
    requires Counted(o, wirings, m, chat, adapter, turns, n)
    ensures Counted(o', wirings, m, chat, adapter, turns, n + 1)
  {
  }

  lemma {:induction false} RowsUpTo(s: Store, wirings: seq<Wiring>, m: Message, chat: Chat, adapter: Option<Adapter>,
                                    meanwhile: seq<seq<Call>>, turns: seq<TurnOf>, n: nat, o: Outcome)
    returns (at: seq<nat>)
    requires |meanwhile| == |wirings| && n <= |wirings| && o == BeforeTurn(s, wirings, m, chat, adapter, meanwhile, n)
    requires TurnsAre(s, wirings, m, chat, adapter, meanwhile, turns)
    ensures Traced(o.written, at, wirings, m, chat, adapter, turns, n)
    ensures Counted(o, wirings, m, chat, adapter, turns, n)
    decreases n
  {
    if n == 0 {
      NothingYet(s, wirings, m, chat, adapter, meanwhile, turns, o);
      at := [];
    } else {
      var before := BeforeTurn(s, wirings, m, chat, adapter, meanwhile, n - 1);
      at := RowsUpTo(s, wirings, m, chat, adapter, meanwhile, turns, n - 1, before);
      NextTurn(s, wirings, m, chat, adapter, meanwhile, n - 1);
      assert turns[n - 1] == TurnAt(s, wirings, m, chat, adapter, meanwhile, n - 1);
      at := OneTurnMore(before, at, wirings, m, chat, adapter, turns, n - 1, meanwhile[n - 1], o);
    }
  }

  lemma NothingYet(s: Store, wirings: seq<Wiring>, m: Message, chat: Chat, adapter: Option<Adapter>,
                   meanwhile: seq<seq<Call>>, turns: seq<TurnOf>, o: Outcome)
    requires |meanwhile| == |wirings| == |turns| && o == BeforeTurn(s, wirings, m, chat, adapter, meanwhile, 0)
    ensures Traced(o.written, [], wirings, m, chat, adapter, turns, 0)
    ensures Counted(o, wirings, m, chat, adapter, turns, 0)
  {
  }

  lemma OneTurnMore(before: Outcome, at: seq<nat>, wirings: seq<Wiring>, m: Message, chat: Chat,
                    adapter: Option<Adapter>, turns: seq<TurnOf>, n: nat, calls: seq<Call>, o: Outcome)
    returns (at': seq<nat>)
    requires n < |wirings| == |turns| && o == TurnOver(before, wirings[n], m, chat, adapter, calls)
    requires turns[n] == TurnOf(Decide(wirings[n], m, chat, adapter, before.store.rows), before.store,
                                FanOutOne(before, wirings[n], m, chat, adapter).store)
    requires Traced(before.written, at, wirings, m, chat, adapter, turns, n)
    requires Counted(before, wirings, m, chat, adapter, turns, n)
    ensures Traced(o.written, at', wirings, m, chat, adapter, turns, n + 1)
    ensures Counted(o, wirings, m, chat, adapter, turns, n + 1)
  {
    at' := TurnTraced(before, at, wirings, m, chat, adapter, turns, n);
    var after := FanOutOne(before, wirings[n], m, chat, adapter);
    TurnCounted(before, after, wirings, m, chat, adapter, turns, n);
    assert o == after.(store := o.store);
  }

  // Whatever other code does to the sessions meanwhile, the rows and counters of a fan-out are exactly
  // those its wirings were decided to at their own turns, and each row goes to the session that its
  // wiring, chat and thread have then.
  lemma RowsAreDecided(s: Store, wirings: seq<Wiring>, m: Message, chat: Chat, adapter: Option<Adapter>,
                       meanwhile: seq<seq<Call>>, turns: seq<TurnOf>, o: Outcome)
    returns (at: seq<nat>)
    requires |meanwhile| == |wirings| && o == FanOut(Start(s), wirings, m, chat, adapter, meanwhile)
    requires TurnsAre(s, wirings, m, chat, adapter, meanwhile, turns)
    ensures Traced(o.written, at, wirings, m, chat, adapter, turns, |wirings|)
    ensures Counted(o, wirings, m, chat, adapter, turns, |wirings|)
  {
    assert wirings[..|wirings|] == wirings && meanwhile[..|meanwhile|] == meanwhile;
    at := RowsUpTo(s, wirings, m, chat, adapter, meanwhile, turns, |wirings|, o);
  }

  lemma IgnoredHasNoRow(rows: seq<(nat, string, bool)>, at: seq<nat>, wirings: seq<Wiring>, m: Message, chat: Chat,
                        adapter: Option<Adapter>, turns: seq<TurnOf>, k: nat)
    requires |wirings| == |turns| && Traced(rows, at, wirings, m, chat, adapter, turns, |wirings|)
    requires OnePerAgent(wirings) && k < |wirings| && turns[k].decision == Ignore
    ensures forall i :: 0 <= i < |rows| ==> rows[i].1 != wirings[k].agent
  {
    forall i | 0 <= i < |rows|
      ensures rows[i].1 != wirings[k].agent
    {
      assert WrittenFor(rows[i], wirings[at[i]], m, chat, adapter, turns[at[i]]);
    }
  }

  lemma SomeTurns(s: Store, wirings: seq<Wiring>, m: Message, chat: Chat, adapter: Option<Adapter>,
                  meanwhile: seq<seq<Call>>)
    returns (turns: seq<TurnOf>)
    requires |meanwhile| == |wirings|
    ensures TurnsAre(s, wirings, m, chat, adapter, meanwhile, turns)
  {
    turns := seq(|wirings|, j requires 0 <= j < |wirings| => TurnAt(s, wirings, m, chat, adapter, meanwhile, j));
  }

  // A message on which a wiring engages at its turn, by a mention, a pattern or its session, and which a
  // gate then refuses is not written for its agent under any policy.
  lemma RefusedIsNeverWritten(s: Store, wirings: seq<Wiring>, m: Message, chat: Chat, adapter: Option<Adapter>,
                              meanwhile: seq<seq<Call>>, k: nat, rows: seq<Row>, thread: Option<string>, o: Outcome)
    requires |meanwhile| == |wirings| && OnePerAgent(wirings) && k < |wirings|
    requires o == FanOut(Start(s), wirings, m, chat, adapter, meanwhile)
    requires rows == BeforeTurn(s, wirings, m, chat, adapter, meanwhile, k).store.rows
    requires thread == if adapter.Some? && !adapter.value.supportsThreads then None else m.thread
    requires EngagesOn(wirings[k], m, chat, rows, thread)
    requires wirings[k].agent in m.accessRefused || wirings[k] in m.scopeRefused
    ensures forall i :: 0 <= i < |o.written| ==> o.written[i].1 != wirings[k].agent
  {
    var turns := SomeTurns(s, wirings, m, chat, adapter, meanwhile);
    var at := RowsAreDecided(s, wirings, m, chat, adapter, meanwhile, turns, o);
    DecidesExactlyWhen(wirings[k], m, chat, adapter, rows, thread);
    assert turns[k] == TurnAt(s, wirings, m, chat, adapter, meanwhile, k);
    IgnoredHasNoRow(o.written, at, wirings, m, chat, adapter, turns, k);
  }
}
