// Child processes that report 'error' as well as 'close' (src/container-runner.ts). Both handlers forget
// the entry of the session, whichever container it names by then; a container that runs on without its
// entry is one the host no longer knows of.
module ContainerErrors {
  import opened Wrappers
  import opened ContainerRunner

  // A child is in r.live until its 'close'; `ended` are those whose process is over before that.
  // `forgotten` is a history: the containers whose entry went while they were running.
  datatype World = World(r: Runner, ended: set<ContainerId>, forgotten: set<ContainerId>)

  // Plain(ExitStep(c)) is the 'close' of c. A spawn that cannot start its process is a Spawned child
  // followed by Ended and Error.
  datatype Event = Plain(step: Step) | Ended(c: ContainerId) | Error(c: ContainerId)

  ghost predicate Runs(w: World, c: ContainerId, s: SessionId) { c in w.r.live && w.r.live[c] == s && c !in w.ended }

  function Reported(r: Runner, e: Event): Runner {
    match e
    case Plain(step) => Next(r, step)
    case Ended(_) => r
    case Error(c) => if c in r.live then r.(active := r.active - {r.live[c]}) else r
  }

  function Happens(w: World, e: Event): World {
    var r' := Reported(w.r, e);
    var ended := if e.Ended? && e.c in w.r.live then w.ended + {e.c} else w.ended;
    World(r', ended, w.forgotten + Lost(w.r, r', ended))
  }

  // The containers that lose their entry and are still running.
  function Lost(r: Runner, r': Runner, ended: set<ContainerId>): set<ContainerId> {
    set s | s in r.active && s !in r'.active && r.active[s] in r'.live && r.active[s] !in ended :: r.active[s]
  }

  // The world before event n.
  function At(w: World, events: seq<Event>, n: nat): World
    requires n <= |events|
    decreases n
  {
    if n == 0 then w else Happens(At(w, events, n - 1), events[n - 1])
  }

  function Fresh(): World { World(EMPTY, {}, {}) }

  // A running container has its entry or was forgotten.
  ghost predicate KnownOrForgotten(w: World) {
    forall c, s :: Runs(w, c, s) ==> c in w.forgotten || (s in w.r.active && w.r.active[s] == c)
  }

  ghost predicate EntriesOk(r: Runner) {
    && (forall s :: s in r.active ==> r.active[s] in r.live && r.live[r.active[s]] == s)
    && (forall c :: c in r.live ==> c < r.nextId)
    && (forall s :: s in r.wakes ==> s !in r.active)
  }

  ghost predicate Inv(w: World) {
    EntriesOk(w.r) && KnownOrForgotten(w) && forall c :: c in w.ended ==> c < w.r.nextId
  }

  lemma ReportedKeepsEntries(r: Runner, e: Event)
    requires EntriesOk(r)
    ensures EntriesOk(Reported(r, e)) && Reported(r, e).nextId >= r.nextId
  {
    match e
    case Plain(RestartStep(sessions, respawn)) => RestartFrame(r, sessions, respawn);
    case Plain(ExitStep(c)) => ExitFrame(r, c);
    case _ =>
  }

  // A close removes the child and the entry of its session, and may begin one spawn.
  lemma ExitFrame(r: Runner, c: ContainerId)
    ensures c in r.live ==>
      var r' := Exit(r, c); var s := r.live[c];
      && r' == r.(live := r.live - {c}, active := r.active - {s}, wakes := r'.wakes, log := r'.log)
      && r.wakes <= r'.wakes <= r.wakes + {s}
  {
    if c in r.live {
      var s := r.live[c];
      var callbacks := if c in r.onExit then r.onExit[c] else 0;
      WakeTimesIsOneWake(r.(live := r.live - {c}, active := r.active - {s}), s, callbacks);
    }
  }

  // Only the end of a spawn makes a new container run.
  lemma NewlyRunning(w: World, e: Event, c: ContainerId, s: SessionId)
    requires Inv(w) && Runs(Happens(w, e), c, s) && !Runs(w, c, s)
    ensures e == Plain(SpawnStep(s, Spawned)) && s in w.r.wakes && c == w.r.nextId
  {
    match e
    case Plain(RestartStep(sessions, respawn)) => RestartFrame(w.r, sessions, respawn);
    case Plain(ExitStep(d)) => ExitFrame(w.r, d);
    case _ =>
  }

  // An entry that stays is the same entry.
  lemma EntryStays(r: Runner, e: Event, s: SessionId)
    requires EntriesOk(r) && s in r.active && s in Reported(r, e).active
    ensures Reported(r, e).active[s] == r.active[s]
  {
    match e
    case Plain(RestartStep(sessions, respawn)) => RestartFrame(r, sessions, respawn);
    case Plain(ExitStep(d)) => ExitFrame(r, d);
    case _ =>
  }

  lemma HappensKeepsInv(w: World, e: Event)
    requires Inv(w)
    ensures Inv(Happens(w, e))
  {
    var w' := Happens(w, e);
    ReportedKeepsEntries(w.r, e);
    forall c, s | Runs(w', c, s)
      ensures c in w'.forgotten || (s in w'.r.active && w'.r.active[s] == c)
    {
      if !Runs(w, c, s) {
        NewlyRunning(w, e, c, s);
      } else if c !in w.forgotten && s in w'.r.active {
        EntryStays(w.r, e, s);
      }
    }
  }

  lemma {:induction false} AtKeepsInv(w: World, events: seq<Event>, n: nat)
    requires Inv(w) && n <= |events|
    ensures Inv(At(w, events, n))
    decreases n
  {
    if n > 0 {
      AtKeepsInv(w, events, n - 1);
      HappensKeepsInv(At(w, events, n - 1), events[n - 1]);
    }
  }

  // A process that is over does not run again, also before its 'close'.
  lemma {:induction false} EndedStaysEnded(w: World, c: ContainerId, events: seq<Event>, n: nat, s: SessionId)
    requires Inv(w) && c in w.r.live && n <= |events|
    ensures c in At(Happens(w, Ended(c)), events, n).ended && !Runs(At(Happens(w, Ended(c)), events, n), c, s)
    decreases n
  {
    if n > 0 { EndedStaysEnded(w, c, events, n - 1, s); }
  }

  // ---------------------------------------------------------------- two containers of one session

  ghost predicate TwoRun(w: World, s: SessionId) {
    exists c, d :: c != d && Runs(w, c, s) && Runs(w, d, s)
  }

  // A spawn for s ends well while a forgotten container of s is running.
  ghost predicate SpawnsBeside(w: World, e: Event, s: SessionId) {
    e == Plain(SpawnStep(s, Spawned)) && s in w.r.wakes && exists c :: c in w.forgotten && Runs(w, c, s)
  }

  lemma SecondContainer(w: World, e: Event, s: SessionId)
    requires Inv(w) && SpawnsBeside(w, e, s)
    ensures TwoRun(Happens(w, e), s)
  {
    var c :| c in w.forgotten && Runs(w, c, s);
    assert Runs(Happens(w, e), c, s) && Runs(Happens(w, e), w.r.nextId, s);
  }

  lemma FirstTwo(w: World, e: Event, s: SessionId)
    requires Inv(w) && !TwoRun(w, s) && TwoRun(Happens(w, e), s)
    ensures SpawnsBeside(w, e, s)
  {
    var c, d :| c != d && Runs(Happens(w, e), c, s) && Runs(Happens(w, e), d, s);
    if !Runs(w, c, s) {
      NewlyRunning(w, e, c, s);
      if !Runs(w, d, s) { NewlyRunning(w, e, d, s); }
    } else {
      NewlyRunning(w, e, d, s);
    }
  }

  ghost predicate TwoRunBy(w: World, events: seq<Event>, s: SessionId, n: nat)
    requires n <= |events|
  {
    exists k :: 0 <= k <= n && TwoRun(At(w, events, k), s)
  }

  ghost predicate SpawnsBesideAt(w: World, events: seq<Event>, s: SessionId, j: nat)
    requires j < |events|
  {
    SpawnsBeside(At(w, events, j), events[j], s)
  }

  ghost predicate SpawnedBesideBy(w: World, events: seq<Event>, s: SessionId, n: nat)
    requires n <= |events|
  {
    exists j :: 0 <= j < n && SpawnsBesideAt(w, events, s, j)
  }

  lemma OneEventMore(w: World, e: Event, s: SessionId, w': World)
    requires Inv(w) && w' == Happens(w, e)
    ensures SpawnsBeside(w, e, s) ==> TwoRun(w', s)
    ensures TwoRun(w', s) ==> TwoRun(w, s) || SpawnsBeside(w, e, s)
  {
    if SpawnsBeside(w, e, s) {
      SecondContainer(w, e, s);
    } else if TwoRun(w', s) && !TwoRun(w, s) {
      FirstTwo(w, e, s);
    }
  }

  lemma EarlierOrNow(w: World, events: seq<Event>, s: SessionId, n: nat)
    requires n < |events|
    ensures TwoRunBy(w, events, s, n + 1) <==> TwoRunBy(w, events, s, n) || TwoRun(At(w, events, n + 1), s)
    ensures TwoRun(At(w, events, n), s) ==> TwoRunBy(w, events, s, n)
    ensures SpawnedBesideBy(w, events, s, n + 1)
            <==> SpawnedBesideBy(w, events, s, n) || SpawnsBeside(At(w, events, n), events[n], s)
  {
    assert SpawnsBesideAt(w, events, s, n) <==> SpawnsBeside(At(w, events, n), events[n], s);
  }

  // Over every run: two containers of one session come to run at once if and only if a spawn of the session
  // ends well while a container of it runs whose entry an event has removed.
  lemma {:induction false} TwoRunExactlyWhen(w: World, events: seq<Event>, s: SessionId, n: nat)
    requires Inv(w) && !TwoRun(w, s) && n <= |events|
    ensures TwoRunBy(w, events, s, n) <==> SpawnedBesideBy(w, events, s, n)
    decreases n
  {
    if n > 0 {
      TwoRunExactlyWhen(w, events, s, n - 1);
      AtKeepsInv(w, events, n - 1);
      OneEventMore(At(w, events, n - 1), events[n - 1], s, At(w, events, n));
      EarlierOrNow(w, events, s, n - 1);
    }
  }

  // Without an 'error' no running container is ever forgotten.
  lemma {:induction false} ForgottenOnlyByError(events: seq<Event>, n: nat)
    requires n <= |events| && forall i :: 0 <= i < |events| ==> !events[i].Error?
    ensures At(Fresh(), events, n).forgotten == {} && ContainerRunner.Inv(At(Fresh(), events, n).r)
    decreases n
  {
    if n > 0 {
      var w := At(Fresh(), events, n - 1);
      var e := events[n - 1];
      ForgottenOnlyByError(events, n - 1);
      if e.Plain? { NextKeepsInv(w.r, e.step); }
      assert Happens(w, e).forgotten == {} by { NothingLost(w, e); }
    }
  }

  lemma NothingLost(w: World, e: Event)
    requires ContainerRunner.Inv(w.r) && !e.Error?
    ensures Lost(w.r, Reported(w.r, e), Happens(w, e).ended) == {}
  {
    match e
    case Plain(RestartStep(sessions, respawn)) => RestartFrame(w.r, sessions, respawn);
    case Plain(ExitStep(d)) => ExitFrame(w.r, d);
    case _ =>
  }

  // On a fresh host: a container whose 'error' is reported while it runs on, a wake and a spawn; two
  // containers run.
  lemma ErrorLeadsToTwo(s: SessionId, w: World)
    requires w == At(Fresh(), ErrorRun(s), 5)
    ensures Inv(Fresh()) && !TwoRun(Fresh(), s) && TwoRun(w, s)
  {
    var events := ErrorRun(s);
    var w1 := At(Fresh(), events, 1);
    var w2 := At(Fresh(), events, 2);
    var w3 := At(Fresh(), events, 3);
    var w4 := At(Fresh(), events, 4);
    assert s in w1.r.wakes && w1.r.nextId == 0;
    assert Runs(w2, 0, s) && w2.r.active[s] == 0;
    assert Runs(w3, 0, s) && 0 in w3.forgotten && s !in w3.r.active;
    assert Runs(w4, 0, s) && 0 in w4.forgotten && s in w4.r.wakes;
    AtKeepsInv(Fresh(), events, 4);
    SecondContainer(w4, events[4], s);
  }

  ghost function ErrorRun(s: SessionId): seq<Event> {
    [Plain(WakeStep(s)), Plain(SpawnStep(s, Spawned)), Error(0), Plain(WakeStep(s)), Plain(SpawnStep(s, Spawned))]
  }
}
