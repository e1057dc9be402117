// src/session-manager.ts: finding or creating the session of an (agent, chat, thread).
//
// `rows` is the sessions table in insertion order. Generated ids are drawn from a counter: the
// random ids are taken to be distinct.
module SessionManager {
  import opened Wrappers

  datatype SessionMode = Shared | PerThread | AgentShared

  datatype Row = Row(id: nat, agent: string, chat: Option<string>, thread: Option<string>, active: bool, createdAt: int)

  datatype Store = Store(rows: seq<Row>, nextId: nat)

  datatype Resolved = Resolved(session: Row, created: bool)

  // `if (x)` on a nullable string: null and "" are both false.
  predicate Truthy(s: Option<string>) { s.Some? && s.value != "" }

  // The thread a findSessionForAgent query compares with: "" turns into IS NULL.
  function Sought(thread: Option<string>): Option<string> { if Truthy(thread) then thread else None }

  predicate Keyed(r: Row, agent: string, chat: string, thread: Option<string>) {
    r.active && r.agent == agent && r.chat == Some(chat) && r.thread == thread
  }

  function FindSessionForAgent(rows: seq<Row>, agent: string, chat: string, thread: Option<string>): (r: Option<Row>)
    ensures r.Some? ==> r.value in rows && Keyed(r.value, agent, chat, Sought(thread))
    ensures r.None? ==> forall i :: 0 <= i < |rows| ==> !Keyed(rows[i], agent, chat, Sought(thread))
  {
    if rows == [] then None
    else if Keyed(rows[0], agent, chat, Sought(thread)) then Some(rows[0])
    else FindSessionForAgent(rows[1..], agent, chat, thread)
  }

  // ORDER BY created_at DESC LIMIT 1.
  function FindSessionByAgentGroup(rows: seq<Row>, agent: string): (r: Option<Row>)
    ensures r.Some? ==> r.value in rows && r.value.active && r.value.agent == agent
    ensures r.Some? ==> forall i :: 0 <= i < |rows| && rows[i].active && rows[i].agent == agent ==>
            rows[i].createdAt <= r.value.createdAt
    ensures r.None? ==> forall i :: 0 <= i < |rows| ==> !(rows[i].active && rows[i].agent == agent)
  {
    if rows == [] then None
    else
      var rest := FindSessionByAgentGroup(rows[1..], agent);
      if rows[0].active && rows[0].agent == agent && (rest.None? || rest.value.createdAt <= rows[0].createdAt)
      then Some(rows[0]) else rest
  }

  function Existing(rows: seq<Row>, agent: string, chat: Option<string>, thread: Option<string>,
                    mode: SessionMode): Option<Row> {
    if mode.AgentShared? then FindSessionByAgentGroup(rows, agent)
    else if Truthy(chat) then FindSessionForAgent(rows, agent, chat.value, if mode.Shared? then None else thread)
    else None
  }

  function NewRow(s: Store, agent: string, chat: Option<string>, thread: Option<string>, mode: SessionMode,
                  now: int): Row {
    Row(s.nextId, agent, chat, if mode.PerThread? then thread else None, true, now)
  }

  function Resolve(s: Store, agent: string, chat: Option<string>, thread: Option<string>, mode: SessionMode,
                   now: int): (Resolved, Store) {
    var existing := Existing(s.rows, agent, chat, thread, mode);
    if existing.Some? then (Resolved(existing.value, false), s)
    else
      var row := NewRow(s, agent, chat, thread, mode, now);
      (Resolved(row, true), Store(s.rows + [row], s.nextId + 1))
  }

  function Close(s: Store, id: nat): Store {
    s.(rows := seq(|s.rows|, i requires 0 <= i < |s.rows| =>
      if s.rows[i].id == id then s.rows[i].(active := false) else s.rows[i]))
  }

  datatype Call =
    | Find(agent: string, chat: Option<string>, thread: Option<string>, mode: SessionMode, now: int)
    | Shut(id: nat)

  function Next(s: Store, call: Call): Store {
    match call
    case Find(agent, chat, thread, mode, now) => Resolve(s, agent, chat, thread, mode, now).1
    case Shut(id) => Close(s, id)
  }

  function Run(s: Store, calls: seq<Call>): Store
    decreases |calls|
  {
    if calls == [] then s else Run(Next(s, calls[0]), calls[1..])
  }

  class SessionTable {
    var rows: seq<Row>
    var nextId: nat

    constructor ()
      ensures State() == Store([], 0)
    {
      rows, nextId := [], 0;
    }

    ghost function State(): Store
      reads this
    {
      Store(rows, nextId)
    }

    method ResolveSession(agent: string, chat: Option<string>, thread: Option<string>, mode: SessionMode, now: int)
      returns (r: Resolved)
      modifies this
      ensures (r, State()) == Resolve(old(State()), agent, chat, thread, mode, now)
    {
      if mode == AgentShared {
        var existing := FindSessionByAgentGroup(rows, agent);
        if existing.Some? { return Resolved(existing.value, false); }
      } else if Truthy(chat) {
        var lookupThread := if mode == Shared then None else thread;
        var existing := FindSessionForAgent(rows, agent, chat.value, lookupThread);
        if existing.Some? { return Resolved(existing.value, false); }
      }
      var storedThread := if mode == PerThread then thread else None;
      var session := Row(nextId, agent, chat, storedThread, true, now);
      nextId := nextId + 1;
      rows := rows + [session];
      r := Resolved(session, true);
    }

    method CloseSession(id: nat)
      modifies this
      ensures State() == Close(old(State()), id)
    {
      var all := rows;
      rows := seq(|all|, i requires 0 <= i < |all| => if all[i].id == id then all[i].(active := false) else all[i]);
      assert State() == Close(old(State()), id);
    }

    // What other code does to the table.
    method RunCalls(calls: seq<Call>)
      modifies this
      ensures State() == Run(old(State()), calls)
    {
      ghost var end := Run(State(), calls);
      for i := 0 to |calls|
        invariant Run(State(), calls[i..]) == end
      {
        assert calls[i..][0] == calls[i] && calls[i..][1..] == calls[i + 1..];
        match calls[i] {
          case Find(agent, chat, thread, mode, now) => var _ := ResolveSession(agent, chat, thread, mode, now);
          case Shut(id) => CloseSession(id);
        }
      }
    }
  }

  // ---------------------------------------------------------------- uniqueness

  ghost predicate HasSession(rows: seq<Row>, agent: string, chat: string, thread: Option<string>) {
    exists i :: 0 <= i < |rows| && Keyed(rows[i], agent, chat, thread)
  }

  ghost predicate UniqueKey(rows: seq<Row>, agent: string, chat: string, thread: Option<string>) {
    forall i, j ::
      0 <= i < |rows| && 0 <= j < |rows| && Keyed(rows[i], agent, chat, thread) && Keyed(rows[j], agent, chat, thread)
      ==> i == j
  }

  ghost predicate Inv(s: Store) {
    && (forall i :: 0 <= i < |s.rows| ==> s.rows[i].id < s.nextId)
    && (forall i, j :: 0 <= i < j < |s.rows| ==> s.rows[i].id != s.rows[j].id)
    && (forall a, c, t :: c != "" && t != Some("") ==> UniqueKey(s.rows, a, c, t))
  }

  // What one call does to the sessions under a key.
  lemma ResolveEffect(s: Store, agent: string, chat: Option<string>, thread: Option<string>, mode: SessionMode,
                      now: int, a: string, c: string, t: Option<string>)
    requires c != "" && t != Some("")
    ensures var (r, s') := Resolve(s, agent, chat, thread, mode, now);
            && (HasSession(s'.rows, a, c, t)
                <==> HasSession(s.rows, a, c, t) || (r.created && Keyed(r.session, a, c, t)))
            && (r.created && Keyed(r.session, a, c, t) ==> !HasSession(s.rows, a, c, t))
            && (UniqueKey(s.rows, a, c, t) ==> UniqueKey(s'.rows, a, c, t))
  {
    var (r, s') := Resolve(s, agent, chat, thread, mode, now);
    if r.created {
      var row := r.session;
      assert s'.rows == s.rows + [row];
      assert forall i :: 0 <= i < |s.rows| ==> s'.rows[i] == s.rows[i];
      assert s'.rows[|s.rows|] == row;
    }
  }

  lemma NextKeepsInv(s: Store, call: Call)
    requires Inv(s)
    ensures Inv(Next(s, call))
  {
    var s' := Next(s, call);
    forall a, c, t | c != "" && t != Some("")
      ensures UniqueKey(s'.rows, a, c, t)
    {
      assert UniqueKey(s.rows, a, c, t);
      if call.Find? {
        ResolveEffect(s, call.agent, call.chat, call.thread, call.mode, call.now, a, c, t);
      } else {
        assert forall i :: 0 <= i < |s.rows| && Keyed(s'.rows[i], a, c, t) ==> Keyed(s.rows[i], a, c, t);
      }
    }
  }

  lemma {:induction false} RunKeepsInv(s: Store, calls: seq<Call>)
    requires Inv(s)
    ensures Inv(Run(s, calls))
    decreases |calls|
  {
    if calls != [] {
      NextKeepsInv(s, calls[0]);
      RunKeepsInv(Next(s, calls[0]), calls[1..]);
    }
  }

  // Over every sequence of calls in any mix of modes, and of closes, there is at most one active
  // session per (agent, chat, thread) for every chat given and every thread but the empty string.
  lemma ActiveSessionsUnique(calls: seq<Call>, agent: string, chat: string, thread: Option<string>)
    requires chat != "" && thread != Some("")
    ensures UniqueKey(Run(Store([], 0), calls).rows, agent, chat, thread)
  {
    RunKeepsInv(Store([], 0), calls);
  }

  // The empty thread is the exception: per-thread calls look it up as NULL but store it as "". From a
  // table with unique sessions, a call makes a second session under its key if and only if it is such
  // a call, no NULL-thread session hides it, and an empty-thread session is already there.
  lemma UniquenessBrokenExactlyWhen(s: Store, agent: string, chat: string, thread: Option<string>, mode: SessionMode,
                                    now: int)
    requires Inv(s) && chat != "" && UniqueKey(s.rows, agent, chat, Some(""))
    ensures var (r, s') := Resolve(s, agent, Some(chat), thread, mode, now);
            (exists t :: !UniqueKey(s'.rows, agent, chat, t))
            <==> mode == PerThread && thread == Some("")
                 && HasSession(s.rows, agent, chat, Some("")) && !HasSession(s.rows, agent, chat, None)
  {
    var (r, s') := Resolve(s, agent, Some(chat), thread, mode, now);
    forall t | t != Some("")
      ensures UniqueKey(s'.rows, agent, chat, t)
    {
      ResolveEffect(s, agent, Some(chat), thread, mode, now, agent, chat, t);
    }
    if r.created {
      assert s'.rows == s.rows + [r.session];
      assert s'.rows[|s.rows|] == r.session;
      assert forall i :: 0 <= i < |s.rows| ==> s'.rows[i] == s.rows[i];
      if thread == Some("") && mode == PerThread && HasSession(s.rows, agent, chat, Some("")) {
        var i :| 0 <= i < |s.rows| && Keyed(s.rows[i], agent, chat, Some(""));
        assert Keyed(s'.rows[i], agent, chat, Some("")) && Keyed(s'.rows[|s.rows|], agent, chat, Some(""));
        assert !UniqueKey(s'.rows, agent, chat, Some(""));
      }
    } else {
      assert s' == s;
    }
  }

  lemma EmptyThreadMakesTwoSessions()
    ensures var call := Find("a", Some("c"), Some(""), PerThread, 0);
            !UniqueKey(Run(Store([], 0), [call, call]).rows, "a", "c", Some(""))
  {
    var call := Find("a", Some("c"), Some(""), PerThread, 0);
    var s1 := Next(Store([], 0), call);
    assert s1 == Store([Row(0, "a", Some("c"), Some(""), true, 0)], 1);
    var s2 := Next(s1, call);
    assert s2.rows == s1.rows + [Row(1, "a", Some("c"), Some(""), true, 0)];
    assert [call, call][1..] == [call] && [call][1..] == [];
    assert Run(Store([], 0), [call, call]) == Run(s1, [call]) == Run(s2, []) == s2;
    assert Keyed(s2.rows[0], "a", "c", Some("")) && Keyed(s2.rows[1], "a", "c", Some(""));
  }

  // ---------------------------------------------------------------- stability

  ghost predicate NeverShut(calls: seq<Call>, id: nat) {
    forall i :: 0 <= i < |calls| ==> calls[i] != Shut(id)
  }

  lemma {:induction false} RowStays(s: Store, calls: seq<Call>, k: nat)
    requires k < |s.rows| && NeverShut(calls, s.rows[k].id)
    ensures k < |Run(s, calls).rows| && Run(s, calls).rows[k] == s.rows[k]
    decreases |calls|
  {
    if calls != [] {
      assert calls[0] != Shut(s.rows[k].id);
      RowStays(Next(s, calls[0]), calls[1..], k);
    }
  }

  // The one active session with its key is what a lookup finds, and no call creates another.
  lemma FoundAgain(s: Store, agent: string, chat: string, thread: Option<string>, mode: SessionMode, now: int, k: nat)
    requires chat != "" && thread != Some("") && mode != AgentShared && k < |s.rows|
    requires var key := if mode == Shared then None else thread;
             Keyed(s.rows[k], agent, chat, key) && UniqueKey(s.rows, agent, chat, key)
    ensures Resolve(s, agent, Some(chat), thread, mode, now) == (Resolved(s.rows[k], false), s)
  {
    var key := if mode == Shared then None else thread;
    var found := FindSessionForAgent(s.rows, agent, chat, key);
    if found.Some? {
      var j :| 0 <= j < |s.rows| && s.rows[j] == found.value;
      assert j == k;
    }
  }

  lemma ResolvedIsStored(s: Store, agent: string, chat: string, thread: Option<string>, mode: SessionMode, now: int,
                         r: Resolved, s1: Store)
    returns (k: nat)
    requires chat != "" && thread != Some("") && mode != AgentShared
    requires (r, s1) == Resolve(s, agent, Some(chat), thread, mode, now)
    ensures k < |s1.rows| && s1.rows[k] == r.session
    ensures Keyed(r.session, agent, chat, if mode == Shared then None else thread)
  {
    if r.created {
      k := |s.rows|;
    } else {
      k :| 0 <= k < |s1.rows| && s1.rows[k] == r.session;
    }
  }

  // Shared and per-thread calls for a chat keep returning the same session until it is closed.
  lemma SameSessionUntilClosed(s: Store, agent: string, chat: string, thread: Option<string>, mode: SessionMode,
                               now: int, r: Resolved, s1: Store, calls: seq<Call>, later: int)
    requires Inv(s) && chat != "" && thread != Some("") && mode != AgentShared
    requires (r, s1) == Resolve(s, agent, Some(chat), thread, mode, now) && NeverShut(calls, r.session.id)
    ensures Resolve(Run(s1, calls), agent, Some(chat), thread, mode, later)
            == (Resolved(r.session, false), Run(s1, calls))
  {
    NextKeepsInv(s, Find(agent, Some(chat), thread, mode, now));
    RunKeepsInv(s1, calls);
    var k := ResolvedIsStored(s, agent, chat, thread, mode, now, r, s1);
    RowStays(s1, calls, k);
    assert UniqueKey(Run(s1, calls).rows, agent, chat, if mode == Shared then None else thread);
    FoundAgain(Run(s1, calls), agent, chat, thread, mode, later, k);
  }

  // Closing a session makes it inactive and changes nothing else.
  lemma CloseEffect(s: Store, id: nat, i: nat)
    requires i < |s.rows|
    ensures |Close(s, id).rows| == |s.rows| && Close(s, id).nextId == s.nextId
    ensures s.rows[i].id == id ==> Close(s, id).rows[i] == s.rows[i].(active := false)
    ensures s.rows[i].id != id ==> Close(s, id).rows[i] == s.rows[i]
  {
  }

  // Once the session is closed, the next shared or per-thread call of its chat makes a new one.
  lemma ClosedIsReplaced(s: Store, agent: string, chat: string, thread: Option<string>, mode: SessionMode, now: int,
                         r: Resolved, s1: Store, later: int)
    requires Inv(s) && chat != "" && thread != Some("") && mode != AgentShared
    requires (r, s1) == Resolve(s, agent, Some(chat), thread, mode, now)
    ensures var again := Resolve(Close(s1, r.session.id), agent, Some(chat), thread, mode, later).0;
            again.created && again.session.id != r.session.id
            && Keyed(again.session, agent, chat, if mode == Shared then None else thread)
  {
    var key := if mode == Shared then None else thread;
    var closed := Close(s1, r.session.id);
    NextKeepsInv(s, Find(agent, Some(chat), thread, mode, now));
    var k := ResolvedIsStored(s, agent, chat, thread, mode, now, r, s1);
    assert UniqueKey(s1.rows, agent, chat, key);
    forall i | 0 <= i < |closed.rows|
      ensures !Keyed(closed.rows[i], agent, chat, key)
    {
      CloseEffect(s1, r.session.id, i);
    }
  }

  // ---------------------------------------------------------------- agent-shared sessions

  // Row k is what an agent-shared lookup of the agent finds: active, the newest, the first of its time.
  ghost predicate Newest(rows: seq<Row>, agent: string, k: nat) {
    && k < |rows| && rows[k].active && rows[k].agent == agent
    && forall j :: 0 <= j < |rows| && rows[j].active && rows[j].agent == agent ==>
         rows[j].createdAt < rows[k].createdAt || (rows[j].createdAt == rows[k].createdAt && k <= j)
  }

  lemma {:induction false} FindsNewest(rows: seq<Row>, agent: string, k: nat)
    requires Newest(rows, agent, k)
    ensures FindSessionByAgentGroup(rows, agent) == Some(rows[k])
    decreases |rows|
  {
    var tail := rows[1..];
    if k > 0 {
      NewestOfTail(rows, agent, k);
      FindsNewest(tail, agent, k - 1);
    } else {
      var rest := FindSessionByAgentGroup(tail, agent);
      if rest.Some? {
        var j :| 0 <= j < |tail| && tail[j] == rest.value;
        assert rows[j + 1] == rest.value;
      }
    }
  }

  lemma NewestOfTail(rows: seq<Row>, agent: string, k: nat)
    requires Newest(rows, agent, k) && k > 0
    ensures Newest(rows[1..], agent, k - 1)
  {
    var tail := rows[1..];
    forall j | 0 <= j < |tail| && tail[j].active && tail[j].agent == agent
      ensures tail[j].createdAt < tail[k - 1].createdAt
              || (tail[j].createdAt == tail[k - 1].createdAt && k - 1 <= j)
    {
      assert tail[j] == rows[j + 1];
    }
  }

  lemma {:induction false} NewestExists(rows: seq<Row>, agent: string, i: nat) returns (k: nat)
    requires i < |rows| && rows[i].active && rows[i].agent == agent
    ensures Newest(rows, agent, k)
    decreases |rows|
  {
    var last := |rows| - 1;
    var head := rows[..last];
    if j :| 0 <= j < last && rows[j].active && rows[j].agent == agent {
      assert head[j] == rows[j];
      k := NewestExists(head, agent, j);
      assert forall l :: 0 <= l < last ==> head[l] == rows[l];
      if rows[last].active && rows[last].agent == agent && rows[last].createdAt > rows[k].createdAt { k := last; }
    } else {
      k := i;
    }
  }

  // Until session k is closed, and unless the agent is asked for in another mode, which may add a session.
  ghost predicate SharedOnly(calls: seq<Call>, agent: string, id: nat) {
    forall i :: 0 <= i < |calls| ==>
      calls[i] != Shut(id) && (calls[i].Find? && calls[i].agent == agent ==> calls[i].mode == AgentShared)
  }

  lemma NewestStep(s: Store, call: Call, agent: string, k: nat)
    requires Newest(s.rows, agent, k) && call != Shut(s.rows[k].id)
    requires call.Find? && call.agent == agent ==> call.mode == AgentShared
    ensures var rows := Next(s, call).rows; Newest(rows, agent, k) && rows[k] == s.rows[k]
  {
    if call.Find? {
      FindsNewest(s.rows, agent, k);
      var (r, s') := Resolve(s, call.agent, call.chat, call.thread, call.mode, call.now);
      if r.created { assert call.agent != agent && s'.rows == s.rows + [r.session]; }
    }
  }

  lemma {:induction false} NewestStays(s: Store, calls: seq<Call>, agent: string, k: nat)
    requires Newest(s.rows, agent, k) && SharedOnly(calls, agent, s.rows[k].id)
    ensures var rows := Run(s, calls).rows; Newest(rows, agent, k) && rows[k] == s.rows[k]
    decreases |calls|
  {
    if calls != [] {
      assert calls[0] != Shut(s.rows[k].id);
      NewestStep(s, calls[0], agent, k);
      NewestStays(Next(s, calls[0]), calls[1..], agent, k);
    }
  }

  // Agent-shared calls from any chats and threads return the agent's newest active session, a new one only
  // if it has none, and the same one from then on until it is closed.
  lemma AgentSharedSession(s: Store, agent: string, chat: Option<string>, thread: Option<string>, now: int,
                           r: Resolved, s1: Store)
    returns (k: nat)
    requires (r, s1) == Resolve(s, agent, chat, thread, AgentShared, now)
    ensures Newest(s1.rows, agent, k) && s1.rows[k] == r.session
    ensures r.created <==> forall i :: 0 <= i < |s.rows| ==> !(s.rows[i].active && s.rows[i].agent == agent)
    ensures if r.created then s1.rows == s.rows + [r.session] else s1 == s
  {
    if r.created {
      k := |s.rows|;
    } else {
      var i :| 0 <= i < |s.rows| && s.rows[i].active && s.rows[i].agent == agent;
      k := NewestExists(s.rows, agent, i);
      FindsNewest(s.rows, agent, k);
    }
  }

  lemma AgentSharedUntilClosed(s: Store, agent: string, chat: Option<string>, thread: Option<string>, now: int,
                               r: Resolved, s1: Store, calls: seq<Call>, s2: Store, chat2: Option<string>,
                               thread2: Option<string>, later: int)
    requires (r, s1) == Resolve(s, agent, chat, thread, AgentShared, now)
    requires SharedOnly(calls, agent, r.session.id) && s2 == Run(s1, calls)
    ensures Resolve(s2, agent, chat2, thread2, AgentShared, later) == (Resolved(r.session, false), s2)
  {
    var k := AgentSharedSession(s, agent, chat, thread, now, r, s1);
    NewestStays(s1, calls, agent, k);
    FindsNewest(s2.rows, agent, k);
  }
}
