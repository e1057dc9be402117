// src/router.ts: the fan-out of one inbound message to the agents wired to its chat.
//
// A message carries the answers of the outside world: which agents' access gate and which wirings'
// scope gate refuse it, for which agents the command gate drops it, and which patterns match it
// (a pattern that does not compile counts as matching).
module Router {
  import opened Wrappers
  import opened SessionManager

  datatype EngageMode = Pattern(pattern: Option<string>) | Mention | MentionSticky | UnknownMode
  datatype Policy = Accumulate | Drop
  datatype Wiring = Wiring(agent: string, engage: EngageMode, policy: Policy, sessionMode: SessionMode)

  datatype Chat = Chat(id: string, isGroup: bool)
  datatype Adapter = Adapter(supportsThreads: bool, canSubscribe: bool)

  datatype Message = Message(
    isMention: bool, thread: Option<string>, matching: set<string>, agentGroups: set<string>,
    accessRefused: set<string>, scopeRefused: set<Wiring>, commandDropped: set<string>, now: int)

  // Written: (session id, agent, trigger) of each messages_in row.
  datatype Outcome = Outcome(store: Store, written: seq<(nat, string, bool)>, engaged: nat, accumulated: nat,
                             subscribed: nat)

  predicate Engages(w: Wiring, m: Message, chat: Chat, rows: seq<Row>, thread: Option<string>) {
    match w.engage
    case Pattern(p) => var pat := (if p.Some? then p.value else "."); pat == "." || pat in m.matching
    case Mention => m.isMention
    case MentionSticky =>
      m.isMention || (chat.isGroup && FindSessionForAgent(rows, w.agent, chat.id, thread).Some?)
    case UnknownMode => false
  }

  predicate GatesPass(w: Wiring, m: Message) { w.agent !in m.accessRefused && w !in m.scopeRefused }

  datatype Decision = Wake | StoreSilently | Ignore

  predicate Threaded(adapter: Option<Adapter>) { adapter.Some? && adapter.value.supportsThreads }

  function EffectiveMode(w: Wiring, chat: Chat, adapter: Option<Adapter>): SessionMode {
    if Threaded(adapter) && !w.sessionMode.AgentShared? && chat.isGroup then PerThread else w.sessionMode
  }

  // The adapter's thread policy.
  function EventThread(m: Message, adapter: Option<Adapter>): Option<string> {
    if adapter.Some? && !adapter.value.supportsThreads then None else m.thread
  }

  function Decide(w: Wiring, m: Message, chat: Chat, adapter: Option<Adapter>, rows: seq<Row>): Decision {
    var engages := Engages(w, m, chat, rows, EventThread(m, adapter));
    if w.agent !in m.agentGroups then Ignore
    else if engages && GatesPass(w, m) then Wake
    else if w.policy.Accumulate? && !engages then StoreSilently
    else Ignore
  }

  function DeliverToAgent(o: Outcome, w: Wiring, m: Message, chat: Chat, adapter: Option<Adapter>,
                          wake: bool): Outcome {
    var mode := EffectiveMode(w, chat, adapter);
    var (r, store) := Resolve(o.store, w.agent, Some(chat.id), EventThread(m, adapter), mode, m.now);
    Outcome(store, if w.agent in m.commandDropped then o.written else o.written + [(r.session.id, w.agent, wake)],
            o.engaged + (if wake then 1 else 0), o.accumulated + (if wake then 0 else 1), o.subscribed)
  }

  predicate Subscribes(w: Wiring, m: Message, chat: Chat, adapter: Option<Adapter>) {
    w.engage.MentionSticky? && Threaded(adapter) && adapter.value.canSubscribe && EventThread(m, adapter).Some?
      && chat.isGroup
  }

  function FanOutOne(o: Outcome, w: Wiring, m: Message, chat: Chat, adapter: Option<Adapter>): Outcome {
    match Decide(w, m, chat, adapter, o.store.rows)
    case Wake =>
      var d := DeliverToAgent(o, w, m, chat, adapter, true);
      if o.subscribed == 0 && Subscribes(w, m, chat, adapter) then d.(subscribed := 1) else d
    case StoreSilently => DeliverToAgent(o, w, m, chat, adapter, false)
    case Ignore => o
  }

  // The whole fan-out. Each wiring is evaluated, gated, resolved and written without an await; the await
  // behind it lets other code run, and meanwhile[i] is what that code does to the sessions table.
  function FanOut(o: Outcome, wirings: seq<Wiring>, m: Message, chat: Chat, adapter: Option<Adapter>,
                  meanwhile: seq<seq<Call>>): Outcome
    requires |meanwhile| == |wirings|
    decreases |wirings|
  {
    if wirings == [] then o
    else
      var turn := FanOutOne(o, wirings[0], m, chat, adapter);
      FanOut(turn.(store := Run(turn.store, meanwhile[0])), wirings[1..], m, chat, adapter, meanwhile[1..])
  }

  function Start(store: Store): Outcome { Outcome(store, [], 0, 0, 0) }

  // The loop body for one wiring, up to its await.
  method RouteToAgent(table: SessionTable, before: Outcome, w: Wiring, m: Message, chat: Chat, adapter: Option<Adapter>)
    returns (after: Outcome)
    requires before.store == table.State()
    modifies table
    ensures after == FanOutOne(before, w, m, chat, adapter) && table.State() == after.store
  {
    var written, engagedCount := before.written, before.engaged;
    var accumulatedCount, subscribed := before.accumulated, before.subscribed;
    var thread := EventThread(m, adapter);
    after := before;
    if w.agent !in m.agentGroups { return; }
    var engages := Engages(w, m, chat, table.rows, thread);
    var accessOk := engages && w.agent !in m.accessRefused;
    var scopeOk := engages && w !in m.scopeRefused;
    if engages && accessOk && scopeOk {
      var r := table.ResolveSession(w.agent, Some(chat.id), thread, EffectiveMode(w, chat, adapter), m.now);
      if w.agent !in m.commandDropped { written := written + [(r.session.id, w.agent, true)]; }
      engagedCount := engagedCount + 1;
      if subscribed == 0 && w.engage == MentionSticky && adapter.Some? && adapter.value.supportsThreads
         && adapter.value.canSubscribe && thread.Some? && chat.isGroup {
        subscribed := 1;
      }
    } else if w.policy == Accumulate && !(engages && (!accessOk || !scopeOk)) {
      var r := table.ResolveSession(w.agent, Some(chat.id), thread, EffectiveMode(w, chat, adapter), m.now);
      if w.agent !in m.commandDropped { written := written + [(r.session.id, w.agent, false)]; }
      accumulatedCount := accumulatedCount + 1;
    } else {
      return;
    }
    after := Outcome(Store(table.rows, table.nextId), written, engagedCount, accumulatedCount, subscribed);
  }

  // The fan-out loop; `dropped` is the 'no_agent_engaged' record.
  method RouteToAgents(table: SessionTable, wirings: seq<Wiring>, m: Message, chat: Chat, adapter: Option<Adapter>,
                       meanwhile: seq<seq<Call>>)
    returns (o: Outcome, dropped: bool)
    requires |meanwhile| == |wirings|
    modifies table
    ensures o == FanOut(Start(old(table.State())), wirings, m, chat, adapter, meanwhile) && table.State() == o.store
    ensures dropped <==> o.engaged + o.accumulated == 0
  {
    o := Outcome(Store(table.rows, table.nextId), [], 0, 0, 0);
    ghost var all := FanOut(o, wirings, m, chat, adapter, meanwhile);
    for i := 0 to |wirings|
      invariant o.store == table.State()
      invariant FanOut(o, wirings[i..], m, chat, adapter, meanwhile[i..]) == all
    {
      assert wirings[i..][0] == wirings[i] && wirings[i..][1..] == wirings[i + 1..];
      assert meanwhile[i..][0] == meanwhile[i] && meanwhile[i..][1..] == meanwhile[i + 1..];
      o := RouteToAgent(table, o, wirings[i], m, chat, adapter);
      table.RunCalls(meanwhile[i]);
      o := o.(store := Store(table.rows, table.nextId));
    }
    dropped := o.engaged + o.accumulated == 0;
  }

  // ---------------------------------------------------------------- one wiring's turn

  ghost predicate OnePerAgent(wirings: seq<Wiring>) {
    forall i, j :: 0 <= i < j < |wirings| ==> wirings[i].agent != wirings[j].agent
  }

  // Whether wiring w, reached in state `rows`, makes sure a session exists.
  predicate Touches(w: Wiring, m: Message, chat: Chat, adapter: Option<Adapter>, rows: seq<Row>) {
    !Decide(w, m, chat, adapter, rows).Ignore?
  }

  // For a threaded group chat, one wiring affects only the session of its own agent and thread.
  lemma OneWiringEffect(o: Outcome, w: Wiring, m: Message, chat: Chat, adapter: Option<Adapter>,
                        a: string, c: string, t: Option<string>)
    requires c != "" && t != Some("") && chat.id != "" && chat.isGroup && Threaded(adapter)
    requires w.agent == a ==> !w.sessionMode.AgentShared?
    ensures HasSession(FanOutOne(o, w, m, chat, adapter).store.rows, a, c, t)
            <==> HasSession(o.store.rows, a, c, t)
                 || (Touches(w, m, chat, adapter, o.store.rows) && w.agent == a && chat.id == c && m.thread == t)
  {
    if Touches(w, m, chat, adapter, o.store.rows) {
      var mode := EffectiveMode(w, chat, adapter);
      ResolveEffect(o.store, w.agent, Some(chat.id), m.thread, mode, m.now, a, c, t);
      var (r, s') := Resolve(o.store, w.agent, Some(chat.id), m.thread, mode, m.now);
      if w.agent == a && chat.id == c && m.thread == t && !r.created {
        var i :| 0 <= i < |o.store.rows| && o.store.rows[i] == r.session;
        assert Keyed(o.store.rows[i], a, c, t);
      }
    }
  }

  lemma FindIsHas(rows: seq<Row>, a: string, c: string, t: Option<string>)
    requires t != Some("")
    ensures FindSessionForAgent(rows, a, c, t).Some? <==> HasSession(rows, a, c, t)
  {
    var f := FindSessionForAgent(rows, a, c, t);
    if f.Some? {
      var i :| 0 <= i < |rows| && rows[i] == f.value;
      assert Keyed(rows[i], a, c, t);
    }
  }

  // ---------------------------------------------------------------- engagement and decision in full

  // When a wiring engages, read off the message and the sessions; a lookup with the empty thread is one
  // with no thread.
  ghost predicate EngagesOn(w: Wiring, m: Message, chat: Chat, rows: seq<Row>, thread: Option<string>) {
    || w.engage == Pattern(None) || w.engage == Pattern(Some("."))
    || (exists p :: p in m.matching && w.engage == Pattern(Some(p)))
    || ((w.engage == Mention || w.engage == MentionSticky) && m.isMention)
    || (w.engage == MentionSticky && chat.isGroup
        && HasSession(rows, w.agent, chat.id, if thread == Some("") then None else thread))
  }

  // Wake exactly on an engagement that neither gate refuses; store exactly without one, under accumulate.
  lemma DecidesExactlyWhen(w: Wiring, m: Message, chat: Chat, adapter: Option<Adapter>, rows: seq<Row>,
                           thread: Option<string>)
    requires thread == if adapter.Some? && !adapter.value.supportsThreads then None else m.thread
    ensures Engages(w, m, chat, rows, thread) <==> EngagesOn(w, m, chat, rows, thread)
    ensures Decide(w, m, chat, adapter, rows) == Wake
            <==> w.agent in m.agentGroups && EngagesOn(w, m, chat, rows, thread)
                 && w.agent !in m.accessRefused && w !in m.scopeRefused
    ensures Decide(w, m, chat, adapter, rows) == StoreSilently
            <==> w.agent in m.agentGroups && !EngagesOn(w, m, chat, rows, thread) && w.policy == Accumulate
  {
    FindIsHas(rows, w.agent, chat.id, if thread == Some("") then None else thread);
    FoundAsNone(rows, w.agent, chat.id, thread);
  }

  lemma {:induction false} FoundAsNone(rows: seq<Row>, agent: string, chat: string, thread: Option<string>)
    ensures FindSessionForAgent(rows, agent, chat, thread)
            == FindSessionForAgent(rows, agent, chat, if thread == Some("") then None else thread)
    decreases |rows|
  {
    if rows != [] { FoundAsNone(rows[1..], agent, chat, thread); }
  }
}
