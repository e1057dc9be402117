// src/container-runner.ts and src/container-restart.ts: waking, killing and restarting the one
// container of each session.
//
// Sessions and containers are named by strings and numbers. A promise callback runs before the next
// event, so the end of a spawn and the removal of its wake promise are one step. Each child process
// reports its end by 'close'; ContainerErrors adds 'error'.
module ContainerRunner {
  import opened Wrappers

  type SessionId = string
  type ContainerId = nat

  // The Docker side is `live`: container -> session. The log is a history: the spawns begun and the
  // containers started, per session.
  datatype Runner = Runner(
    active: map<SessionId, ContainerId>,
    wakes: set<SessionId>,
    onExit: map<ContainerId, nat>,
    live: map<ContainerId, SessionId>,
    nextId: ContainerId,
    rows: set<SessionId>,
    onWakeRows: map<SessionId, nat>,
    log: Log)

  datatype Log = Log(attempts: map<SessionId, nat>, started: map<SessionId, nat>)

  datatype SpawnOutcome = Spawned | SpawnFailed | NoAgentGroup

  function Count(m: map<SessionId, nat>, s: SessionId): nat { if s in m then m[s] else 0 }

  function Wake(r: Runner, s: SessionId): Runner {
    if s in r.active || s in r.wakes then r
    else r.(wakes := r.wakes + {s}, log := r.log.(attempts := r.log.attempts[s := Count(r.log.attempts, s) + 1]))
  }

  function FinishSpawn(r: Runner, s: SessionId, outcome: SpawnOutcome): Runner {
    if s !in r.wakes then r
    else
      var settled := r.(wakes := r.wakes - {s});
      if outcome.Spawned? then
        settled.(active := r.active[s := r.nextId], live := r.live[r.nextId := s], nextId := r.nextId + 1,
                 onExit := r.onExit[r.nextId := 0],
                 log := r.log.(started := r.log.started[s := Count(r.log.started, s) + 1]))
      else settled
  }

  // Registers the callback; the process ends later, by Exit.
  function Kill(r: Runner, s: SessionId, respawn: bool): Runner {
    if s in r.active && respawn && r.active[s] in r.onExit
    then r.(onExit := r.onExit[r.active[s] := r.onExit[r.active[s]] + 1])
    else r
  }

  datatype Signal = Stop(c: ContainerId) | SigKill(c: ContainerId)

  function Signals(r: Runner, s: SessionId, stopOk: bool): seq<Signal> {
    if s !in r.active then [] else if stopOk then [Stop(r.active[s])] else [Stop(r.active[s]), SigKill(r.active[s])]
  }

  function WakeTimes(r: Runner, s: SessionId, n: nat): Runner
    decreases n
  {
    if n == 0 then r else WakeTimes(if s in r.rows then Wake(r, s) else r, s, n - 1)
  }

  // The close event: the runner's own handler forgets the session's entry, then the restart callbacks run.
  function Exit(r: Runner, c: ContainerId): Runner {
    if c !in r.live then r
    else
      var s := r.live[c];
      WakeTimes(r.(live := r.live - {c}, active := r.active - {s}), s, if c in r.onExit then r.onExit[c] else 0)
  }

  function RestartOne(r: Runner, s: SessionId, respawn: bool): Runner {
    if s !in r.active then r
    else if respawn then Kill(r.(onWakeRows := r.onWakeRows[s := Count(r.onWakeRows, s) + 1]), s, true)
    else Kill(r, s, false)
  }

  function RestartAll(r: Runner, sessions: seq<SessionId>, respawn: bool): Runner
    decreases |sessions|
  {
    if sessions == [] then r else RestartAll(RestartOne(r, sessions[0], respawn), sessions[1..], respawn)
  }

  // ---------------------------------------------------------------- the program's objects

  class Host {
    var activeContainers: map<SessionId, ContainerId>
    var wakePromises: set<SessionId>
    var onExit: map<ContainerId, nat>
    var live: map<ContainerId, SessionId>
    var nextId: ContainerId
    var rows: set<SessionId>
    var onWakeRows: map<SessionId, nat>
    ghost var attempts: map<SessionId, nat>
    ghost var started: map<SessionId, nat>

    constructor ()
      ensures State() == EMPTY
    {
      activeContainers, wakePromises, onExit, live := map[], {}, map[], map[];
      nextId, rows, onWakeRows, attempts, started := 0, {}, map[], map[], map[];
    }

    ghost function State(): Runner
      reads this
    {
      Runner(activeContainers, wakePromises, onExit, live, nextId, rows, onWakeRows, Log(attempts, started))
    }

    method WakeContainer(s: SessionId)
      modifies this`wakePromises, this`attempts
      ensures State() == Wake(old(State()), s)
    {
      if s in activeContainers { return; }
      if s in wakePromises { return; }
      attempts := attempts[s := Count(attempts, s) + 1];
      wakePromises := wakePromises + {s};
    }

    // The end of spawnContainer followed by the promise's finally.
    method SpawnEnded(s: SessionId, outcome: SpawnOutcome)
      requires s in wakePromises
      modifies this
      ensures State() == FinishSpawn(old(State()), s, outcome)
    {
      if outcome == Spawned {
        var container := nextId;
        nextId := nextId + 1;
        live := live[container := s];
        onExit := onExit[container := 0];
        activeContainers := activeContainers[s := container];
        started := started[s := Count(started, s) + 1];
      }
      wakePromises := wakePromises - {s};
    }

    // The stop command names the session's container; if it fails (stopOk), the process gets SIGKILL.
    method KillContainer(s: SessionId, respawn: bool, stopOk: bool) returns (sent: seq<Signal>)
      modifies this`onExit
      ensures State() == Kill(old(State()), s, respawn)
      ensures sent == Signals(old(State()), s, stopOk)
    {
      sent := [];
      if s !in activeContainers { return; }
      var entry := activeContainers[s];
      if respawn && entry in onExit {
        onExit := onExit[entry := onExit[entry] + 1];
      }
      sent := [Stop(entry)];
      if !stopOk { sent := sent + [SigKill(entry)]; }
    }

    method OnClose(c: ContainerId)
      requires c in live
      modifies this
      ensures State() == Exit(old(State()), c)
    {
      var s := live[c];
      var callbacks := if c in onExit then onExit[c] else 0;
      live := live - {c};
      activeContainers := activeContainers - {s};
      ghost var closed := State();
      var i := 0;
      while i < callbacks
        invariant i <= callbacks && rows == closed.rows
        invariant WakeTimes(State(), s, callbacks - i) == WakeTimes(closed, s, callbacks)
      {
        if s in rows { WakeContainer(s); }
        i := i + 1;
      }
    }

    // The loop body for one session with a running container.
    method RestartSession(s: SessionId, respawn: bool, stopOk: bool)
      requires s in activeContainers
      modifies this`onExit, this`onWakeRows
      ensures State() == RestartOne(old(State()), s, respawn)
    {
      if respawn {
        onWakeRows := onWakeRows[s := Count(onWakeRows, s) + 1];
      }
      var _ := KillContainer(s, respawn, stopOk);
    }

    // `sessions` lists the agent group's active session rows; stopFails those whose stop command fails.
    method RestartAgentGroupContainers(sessions: seq<SessionId>, respawn: bool, stopFails: set<SessionId>)
      returns (count: nat)
      requires forall i, j :: 0 <= i < j < |sessions| ==> sessions[i] != sessions[j]
      modifies this`onExit, this`onWakeRows
      ensures State() == RestartAll(old(State()), sessions, respawn)
      ensures count == |set s | s in sessions && s in activeContainers|
    {
      count := 0;
      ghost var end := RestartAll(State(), sessions, respawn);
      ghost var hit: set<SessionId> := {};
      for i := 0 to |sessions|
        invariant RestartAll(State(), sessions[i..], respawn) == end
        invariant hit == set s | s in sessions[..i] && s in activeContainers
        invariant count == |hit|
      {
        var s := sessions[i];
        assert sessions[i..][0] == s && sessions[i..][1..] == sessions[i + 1..];
        assert forall t :: t in sessions[..i + 1] <==> t == s || t in sessions[..i];
        if s in activeContainers {
          RestartSession(s, respawn, s !in stopFails);
          count := count + 1;
          hit := hit + {s};
        }
      }
      assert sessions[..|sessions|] == sessions;
    }
  }

  const EMPTY := Runner(map[], {}, map[], map[], 0, {}, map[], Log(map[], map[]))

  // ---------------------------------------------------------------- runs

  datatype Step =
    | WakeStep(s: SessionId)
    | SpawnStep(s: SessionId, outcome: SpawnOutcome)
    | KillStep(s: SessionId)
    | RestartStep(sessions: seq<SessionId>, respawn: bool)
    | ExitStep(c: ContainerId)
    | OpenStep(s: SessionId)
    | DeleteStep(s: SessionId)

  function Next(r: Runner, step: Step): Runner {
    match step
    case WakeStep(s) => Wake(r, s)
    case SpawnStep(s, outcome) => FinishSpawn(r, s, outcome)
    case KillStep(s) => Kill(r, s, false)
    case RestartStep(sessions, respawn) => RestartAll(r, sessions, respawn)
    case ExitStep(c) => Exit(r, c)
    case OpenStep(s) => r.(rows := r.rows + {s})
    case DeleteStep(s) => r.(rows := r.rows - {s})
  }

  function Run(r: Runner, steps: seq<Step>): Runner
    decreases |steps|
  {
    if steps == [] then r else Run(Next(r, steps[0]), steps[1..])
  }

  ghost predicate Inv(r: Runner) {
    && (forall s :: s in r.active ==> r.active[s] in r.live && r.live[r.active[s]] == s)
    && (forall c :: c in r.live ==> r.live[c] in r.active && r.active[r.live[c]] == c && c < r.nextId && c in r.onExit)
    && (forall s :: s in r.wakes ==> s !in r.active)
    && (forall c :: c in r.onExit ==> c < r.nextId)
  }

  lemma {:induction false} WakeTimesIsOneWake(r: Runner, s: SessionId, n: nat)
    ensures WakeTimes(r, s, n) == if n > 0 && s in r.rows then Wake(r, s) else r
    decreases n
  {
    if n > 0 {
      WakeTimesIsOneWake(if s in r.rows then Wake(r, s) else r, s, n - 1);
    }
  }

  // A kill stops the session's own container; SIGKILL goes to that container, exactly if the stop failed.
  lemma SignalsAre(r: Runner, s: SessionId, stopOk: bool, c: ContainerId)
    ensures s !in r.active ==> Signals(r, s, stopOk) == []
    ensures s in r.active ==> Signals(r, s, stopOk) != [] && Signals(r, s, stopOk)[0] == Stop(r.active[s])
    ensures Stop(c) in Signals(r, s, stopOk) <==> s in r.active && c == r.active[s]
    ensures SigKill(c) in Signals(r, s, stopOk) <==> s in r.active && c == r.active[s] && !stopOk
  {
    if s in r.active {
      assert Signals(r, s, true)[0] == Stop(r.active[s]) && Signals(r, s, false)[1] == SigKill(r.active[s]);
    }
  }

  // What a restart can change.
  ghost predicate SameBut(r: Runner, r': Runner) {
    r' == r.(onExit := r'.onExit, onWakeRows := r'.onWakeRows) && r'.onExit.Keys == r.onExit.Keys
  }

  lemma {:induction false} RestartFrame(r: Runner, sessions: seq<SessionId>, respawn: bool)
    ensures SameBut(r, RestartAll(r, sessions, respawn))
    ensures forall c :: c in r.onExit ==> RestartAll(r, sessions, respawn).onExit[c] >= r.onExit[c]
    ensures !respawn ==> RestartAll(r, sessions, respawn) == r
    decreases |sessions|
  {
    if sessions != [] {
      RestartFrame(RestartOne(r, sessions[0], respawn), sessions[1..], respawn);
    }
  }

  lemma ExitKeepsInv(r: Runner, c: ContainerId, r': Runner)
    requires Inv(r) && r' == Exit(r, c)
    ensures Inv(r')
  {
    if c in r.live {
      var s := r.live[c];
      WakeTimesIsOneWake(r.(live := r.live - {c}, active := r.active - {s}), s, r.onExit[c]);
    }
  }

  lemma SpawnKeepsInv(r: Runner, s: SessionId, outcome: SpawnOutcome, r': Runner)
    requires Inv(r) && r' == FinishSpawn(r, s, outcome)
    ensures Inv(r')
  {
  }

  lemma NextKeepsInv(r: Runner, step: Step)
    requires Inv(r)
    ensures Inv(Next(r, step))
  {
    match step
    case RestartStep(sessions, respawn) => RestartFrame(r, sessions, respawn);
    case ExitStep(c) => ExitKeepsInv(r, c, Next(r, step));
    case SpawnStep(s, outcome) => SpawnKeepsInv(r, s, outcome, Next(r, step));
    case _ =>
  }

  lemma {:induction false} RunKeepsInv(r: Runner, steps: seq<Step>)
    requires Inv(r)
    ensures Inv(Run(r, steps))
    decreases |steps|
  {
    if steps != [] {
      NextKeepsInv(r, steps[0]);
      RunKeepsInv(Next(r, steps[0]), steps[1..]);
    }
  }

  // In every run each session has at most one live container, and none while one is starting; the
  // host's map and the live processes always agree.
  lemma AtMostOneContainer(steps: seq<Step>)
    ensures var r := Run(EMPTY, steps);
            && (forall c, d :: c in r.live && d in r.live && r.live[c] == r.live[d] ==> c == d)
            && (forall c :: c in r.live ==> r.live[c] !in r.wakes)
            && (forall s :: s in r.active <==> s in r.live.Values)
  {
    RunKeepsInv(EMPTY, steps);
    var r := Run(EMPTY, steps);
    forall s | s in r.live.Values
      ensures s in r.active
    {
      var c :| c in r.live && r.live[c] == s;
    }
  }

  // ---------------------------------------------------------------- restarts

  ghost predicate Without(steps: seq<Step>, step: Step) {
    forall i :: 0 <= i < |steps| ==> steps[i] != step
  }

  ghost predicate NoSpawnEnd(steps: seq<Step>, s: SessionId) {
    forall i :: 0 <= i < |steps| ==> !(steps[i].SpawnStep? && steps[i].s == s)
  }

  lemma QuietStep(r: Runner, step: Step, c: ContainerId)
    requires Inv(r) && c in r.live && step != ExitStep(c)
    ensures var r' := Next(r, step); var s := r.live[c];
            && c in r'.live && r'.live[c] == s && c in r.onExit && c in r'.onExit
            && Count(r'.log.attempts, s) == Count(r.log.attempts, s)
            && Count(r'.log.started, s) == Count(r.log.started, s)
            && r'.onExit[c] >= r.onExit[c]
  {
    match step
    case RestartStep(sessions, respawn) => RestartFrame(r, sessions, respawn);
    case ExitStep(d) =>
      if d in r.live {
        WakeTimesIsOneWake(r.(live := r.live - {d}, active := r.active - {r.live[d]}), r.live[d], r.onExit[d]);
        assert r.live[d] != r.live[c];
      }
    case _ =>
  }

  // While container c of session s has not exited, nothing starts or even begins to start another.
  lemma {:induction false} QuietUntilExit(r: Runner, steps: seq<Step>, c: ContainerId)
    requires Inv(r) && c in r.live && Without(steps, ExitStep(c))
    ensures var r' := Run(r, steps); var s := r.live[c];
            && c in r'.live && r'.live[c] == s && c in r.onExit && c in r'.onExit
            && Count(r'.log.attempts, s) == Count(r.log.attempts, s)
            && Count(r'.log.started, s) == Count(r.log.started, s)
            && r'.onExit[c] >= r.onExit[c]
    decreases |steps|
  {
    if steps != [] {
      NextKeepsInv(r, steps[0]);
      QuietStep(r, steps[0], c);
      QuietUntilExit(Next(r, steps[0]), steps[1..], c);
    }
  }

  // While a spawn for s is under way, no second one begins and no container of s appears.
  lemma {:induction false} QuietWhileSpawning(r: Runner, steps: seq<Step>, s: SessionId)
    requires Inv(r) && s in r.wakes && NoSpawnEnd(steps, s)
    ensures var r' := Run(r, steps);
            && s in r'.wakes && Count(r'.log.attempts, s) == Count(r.log.attempts, s)
            && Count(r'.log.started, s) == Count(r.log.started, s)
    decreases |steps|
  {
    if steps != [] {
      NextKeepsInv(r, steps[0]);
      match steps[0] {
        case RestartStep(sessions, respawn) => RestartFrame(r, sessions, respawn);
        case ExitStep(d) =>
          if d in r.live {
            WakeTimesIsOneWake(r.(live := r.live - {d}, active := r.active - {r.live[d]}), r.live[d], r.onExit[d]);
          }
        case _ =>
      }
      QuietWhileSpawning(Next(r, steps[0]), steps[1..], s);
    }
  }

  // A restart with a wake message writes exactly one on-wake row for each listed session with a running
  // container and none for any other session; one without writes none.
  lemma {:induction false} RestartWritesWakeRows(r: Runner, sessions: seq<SessionId>, respawn: bool, s: SessionId)
    requires forall i, j :: 0 <= i < j < |sessions| ==> sessions[i] != sessions[j]
    ensures Count(RestartAll(r, sessions, respawn).onWakeRows, s)
            == Count(r.onWakeRows, s) + (if respawn && s in sessions && s in r.active then 1 else 0)
    ensures Count(map[], s) == 0
    decreases |sessions|
  {
    if sessions != [] {
      RestartWritesWakeRows(RestartOne(r, sessions[0], respawn), sessions[1..], respawn, s);
      assert s in sessions <==> s == sessions[0] || s in sessions[1..];
    }
  }

  // Listed twice or not, rows are only added, and at least one for a listed running session.
  lemma {:induction false} RestartAddsWakeRows(r: Runner, sessions: seq<SessionId>, respawn: bool, s: SessionId)
    ensures Count(RestartAll(r, sessions, respawn).onWakeRows, s) >= Count(r.onWakeRows, s)
    ensures respawn && s in sessions && s in r.active
            ==> Count(RestartAll(r, sessions, respawn).onWakeRows, s) > Count(r.onWakeRows, s)
    decreases |sessions|
  {
    if sessions != [] {
      RestartAddsWakeRows(RestartOne(r, sessions[0], respawn), sessions[1..], respawn, s);
    }
  }

  lemma {:induction false} WakeRowsStay(r: Runner, steps: seq<Step>, s: SessionId)
    ensures Count(Run(r, steps).onWakeRows, s) >= Count(r.onWakeRows, s)
    decreases |steps|
  {
    if steps != [] {
      match steps[0] {
        case RestartStep(sessions, respawn) => RestartAddsWakeRows(r, sessions, respawn, s);
        case ExitStep(c) =>
          if c in r.live {
            var n := if c in r.onExit then r.onExit[c] else 0;
            WakeTimesIsOneWake(r.(live := r.live - {c}, active := r.active - {r.live[c]}), r.live[c], n);
          }
        case _ =>
      }
      WakeRowsStay(Next(r, steps[0]), steps[1..], s);
    }
  }

  // A restart request for a session with a running container is remembered on that container.
  lemma {:induction false} RestartIsRemembered(r: Runner, sessions: seq<SessionId>, s: SessionId)
    requires Inv(r) && s in sessions && s in r.active
    ensures var r' := RestartAll(r, sessions, true); var c := r.active[s];
            c in r'.onExit && c in r.onExit && r'.onExit[c] > r.onExit[c]
    decreases |sessions|
  {
    var r1 := RestartOne(r, sessions[0], true);
    RestartFrame(r1, sessions[1..], true);
    assert Inv(r1);
    if sessions[0] != s {
      RestartIsRemembered(r1, sessions[1..], s);
    }
  }

  // From the request to the exit.
  lemma WaitingForExit(r: Runner, request: seq<SessionId>, asked: Runner, before: seq<Step>, waiting: Runner,
                       c: ContainerId)
    requires Inv(r) && c in r.live && r.live[c] in request && asked == Next(r, RestartStep(request, true))
    requires Without(before, ExitStep(c)) && waiting == Run(asked, before)
    ensures Inv(waiting) && c in waiting.live && waiting.live[c] == r.live[c]
    ensures c in waiting.onExit && waiting.onExit[c] > 0
    ensures Count(waiting.onWakeRows, r.live[c]) > Count(r.onWakeRows, r.live[c])
    ensures Count(waiting.log.attempts, r.live[c]) == Count(r.log.attempts, r.live[c])
    ensures Count(waiting.log.started, r.live[c]) == Count(r.log.started, r.live[c])
  {
    RestartFrame(r, request, true);
    RestartIsRemembered(r, request, r.live[c]);
    RestartAddsWakeRows(r, request, true, r.live[c]);
    NextKeepsInv(r, RestartStep(request, true));
    WakeRowsStay(asked, before, r.live[c]);
    QuietUntilExit(asked, before, c);
    RunKeepsInv(asked, before);
  }

  // The exit itself.
  lemma ExitBeginsSpawn(waiting: Runner, c: ContainerId, s: SessionId, exited: Runner)
    requires Inv(waiting) && c in waiting.live && waiting.live[c] == s && exited == Next(waiting, ExitStep(c))
    requires c in waiting.onExit && waiting.onExit[c] > 0 && s in waiting.rows
    ensures Inv(exited) && c !in exited.live && s in exited.wakes
    ensures Count(exited.log.attempts, s) == Count(waiting.log.attempts, s) + 1
    ensures Count(exited.log.started, s) == Count(waiting.log.started, s)
  {
    NextKeepsInv(waiting, ExitStep(c));
    WakeTimesIsOneWake(waiting.(live := waiting.live - {c}, active := waiting.active - {s}), s, waiting.onExit[c]);
  }

  // Any number of overlapping restart requests (at least one) while container c runs lead, at its
  // exit, to exactly one spawn, and to exactly one fresh container if that spawn succeeds. Nothing
  // starts before the exit, and by then an on-wake row for the fresh container has been written. `before`
  // may hold further requests, kills, wakes and other sessions' events.
  lemma RestartStartsOneContainer(r: Runner, request: seq<SessionId>, before: seq<Step>, c: ContainerId,
                                  after: seq<Step>, outcome: SpawnOutcome)
    requires Inv(r) && c in r.live && r.live[c] in request
    requires Without(before, ExitStep(c)) && NoSpawnEnd(after, r.live[c])
    requires r.live[c] in Run(Next(r, RestartStep(request, true)), before).rows
    ensures var s := r.live[c];
            var asked := Next(r, RestartStep(request, true));
            var waiting := Run(asked, before);
            var exited := Next(waiting, ExitStep(c));
            var spawning := Run(exited, after);
            var done := Next(spawning, SpawnStep(s, outcome));
            && Count(waiting.onWakeRows, s) > Count(r.onWakeRows, s)
            && c in waiting.live && Count(waiting.log.attempts, s) == Count(r.log.attempts, s)
            && Count(waiting.log.started, s) == Count(r.log.started, s)
            && c !in exited.live && Count(exited.log.attempts, s) == Count(r.log.attempts, s) + 1
            && Count(done.log.attempts, s) == Count(r.log.attempts, s) + 1
            && Count(done.log.started, s) == Count(r.log.started, s) + (if outcome.Spawned? then 1 else 0)
            && (outcome.Spawned? <==> s in done.active)
  {
    var s := r.live[c];
    var asked := Next(r, RestartStep(request, true));
    var waiting := Run(asked, before);
    WaitingForExit(r, request, asked, before, waiting, c);
    var exited := Next(waiting, ExitStep(c));
    ExitBeginsSpawn(waiting, c, s, exited);
    QuietWhileSpawning(exited, after, s);
    RunKeepsInv(exited, after);
  }

  lemma StepKeepsRows(r: Runner, step: Step, s: SessionId)
    requires step != OpenStep(s) && step != DeleteStep(s)
    ensures s in Next(r, step).rows <==> s in r.rows
  {
    match step
    case RestartStep(sessions, respawn) => RestartFrame(r, sessions, respawn);
    case ExitStep(c) =>
      if c in r.live {
        var n := if c in r.onExit then r.onExit[c] else 0;
        WakeTimesIsOneWake(r.(live := r.live - {c}, active := r.active - {r.live[c]}), r.live[c], n);
      }
    case _ =>
  }

  lemma {:induction false} RowKept(r: Runner, steps: seq<Step>, s: SessionId)
    requires Without(steps, OpenStep(s)) && Without(steps, DeleteStep(s))
    ensures s in Run(r, steps).rows <==> s in r.rows
    decreases |steps|
  {
    if steps != [] {
      StepKeepsRows(r, steps[0], s);
      RowKept(Next(r, steps[0]), steps[1..], s);
    }
  }

  // A session's row is there from its creation to its deletion.
  lemma RowStays(r: Runner, steps: seq<Step>, s: SessionId)
    requires Without(steps, OpenStep(s)) && Without(steps, DeleteStep(s))
    ensures s in Run(Next(r, OpenStep(s)), steps).rows && s !in Run(Next(r, DeleteStep(s)), steps).rows
  {
    RowKept(Next(r, OpenStep(s)), steps, s);
    RowKept(Next(r, DeleteStep(s)), steps, s);
  }

  // A session deleted before its container exits is not started again, whatever restarts were asked for.
  lemma DeletedIsNotRestarted(r: Runner, s: SessionId, steps: seq<Step>, c: ContainerId, waiting: Runner)
    requires Inv(r) && waiting == Run(Next(r, DeleteStep(s)), steps) && c in waiting.live && waiting.live[c] == s
    requires Without(steps, OpenStep(s)) && Without(steps, DeleteStep(s))
    ensures var exited := Next(waiting, ExitStep(c));
            s !in exited.active && exited.wakes == waiting.wakes && exited.log == waiting.log
  {
    RowStays(r, steps, s);
    NextKeepsInv(r, DeleteStep(s));
    RunKeepsInv(Next(r, DeleteStep(s)), steps);
    WakeTimesIsOneWake(waiting.(live := waiting.live - {c}, active := waiting.active - {s}), s, waiting.onExit[c]);
  }

  // No restart with a wake message names s, and c does not exit.
  ghost predicate OnlyKilled(steps: seq<Step>, s: SessionId, c: ContainerId) {
    Without(steps, ExitStep(c))
    && forall i :: 0 <= i < |steps| && steps[i].RestartStep? && steps[i].respawn ==> s !in steps[i].sessions
  }

  lemma {:induction false} OthersKeepCallbacks(r: Runner, sessions: seq<SessionId>, c: ContainerId)
    requires Inv(r) && c in r.live && r.live[c] !in sessions
    ensures c in r.onExit && c in RestartAll(r, sessions, true).onExit
    ensures RestartAll(r, sessions, true).onExit[c] == r.onExit[c]
    decreases |sessions|
  {
    RestartFrame(r, sessions, true);
    if sessions != [] {
      var r1 := RestartOne(r, sessions[0], true);
      RestartFrame(r1, sessions[1..], true);
      assert sessions[0] in sessions;
      OthersKeepCallbacks(r1, sessions[1..], c);
    }
  }

  lemma CallbacksStep(r: Runner, step: Step, c: ContainerId)
    requires Inv(r) && c in r.live && step != ExitStep(c)
    requires step.RestartStep? && step.respawn ==> r.live[c] !in step.sessions
    ensures c in r.onExit && c in Next(r, step).onExit && Next(r, step).onExit[c] == r.onExit[c]
  {
    match step
    case RestartStep(sessions, respawn) =>
      RestartFrame(r, sessions, respawn);
      if respawn { OthersKeepCallbacks(r, sessions, c); }
    case ExitStep(d) =>
      if d in r.live {
        WakeTimesIsOneWake(r.(live := r.live - {d}, active := r.active - {r.live[d]}), r.live[d], r.onExit[d]);
      }
    case _ =>
  }

  lemma {:induction false} CallbacksStay(r: Runner, steps: seq<Step>, c: ContainerId)
    requires Inv(r) && c in r.live && OnlyKilled(steps, r.live[c], c)
    ensures c in Run(r, steps).live && Run(r, steps).live[c] == r.live[c]
    ensures c in r.onExit && c in Run(r, steps).onExit && Run(r, steps).onExit[c] == r.onExit[c]
    decreases |steps|
  {
    QuietUntilExit(r, steps, c);
    if steps != [] {
      NextKeepsInv(r, steps[0]);
      CallbacksStep(r, steps[0], c);
      QuietStep(r, steps[0], c);
      CallbacksStay(Next(r, steps[0]), steps[1..], c);
    }
  }

  // A container that since its start has seen kills, restarts without a wake message and restarts of
  // other sessions only: its exit starts nothing.
  lemma KillAloneStartsNothing(r: Runner, s: SessionId, steps: seq<Step>, started: Runner, ended: Runner)
    requires Inv(r) && s in r.wakes && started == Next(r, SpawnStep(s, Spawned))
    requires OnlyKilled(steps, s, r.nextId) && ended == Run(started, steps)
    ensures r.nextId in ended.live && ended.live[r.nextId] == s
    ensures var exited := Next(ended, ExitStep(r.nextId));
            s !in exited.active && exited.wakes == ended.wakes && s !in exited.wakes && exited.log == ended.log
  {
    NextKeepsInv(r, SpawnStep(s, Spawned));
    CallbacksStay(started, steps, r.nextId);
    RunKeepsInv(started, steps);
  }
}
