// src/host-sweep.ts: message retry and container supervision for one session.
//
// The session's two SQLite files are the maps `messages` (messages_in, host-owned) and `acks`
// (processing_ack, container-owned). Times are milliseconds; SQLite's datetime('now') keeps whole
// seconds only, which FloorSec makes explicit.
module HostSweep {
  import opened Wrappers

  const ABSOLUTE_CEILING_MS := 30 * 60 * 1000
  const CLAIM_STUCK_MS := 60 * 1000
  const MAX_TRIES := 5
  const BACKOFF_BASE_MS := 5000

  // ---------------------------------------------------------------- stuck decision

  datatype ContainerState = ContainerState(currentTool: Option<string>, declaredTimeoutMs: Option<int>)

  // claimedAt is None when the status_changed text does not parse as a date.
  datatype Claim = Claim(messageId: string, claimedAt: Option<int>)

  datatype StuckDecision =
    | Ok
    | KillCeiling(heartbeatAgeMs: int, ceilingMs: int)
    | KillClaim(messageId: string, claimAgeMs: int, toleranceMs: int)

  function Max(a: int, b: int): int { if a < b then b else a }

  function BashTimeoutMs(state: Option<ContainerState>): Option<int> {
    if state.Some? && state.value.currentTool == Some("Bash") then state.value.declaredTimeoutMs else None
  }

  function AtLeast(floor: int, state: Option<ContainerState>): int {
    Max(floor, match BashTimeoutMs(state) case Some(ms) => ms case None => 0)
  }

  predicate OverCeiling(now: int, heartbeat: int, state: Option<ContainerState>) {
    heartbeat != 0 && now - heartbeat > AtLeast(ABSOLUTE_CEILING_MS, state)
  }

  predicate ClaimStuck(now: int, heartbeat: int, state: Option<ContainerState>, c: Claim) {
    c.claimedAt.Some?
    && now - c.claimedAt.value > AtLeast(CLAIM_STUCK_MS, state)
    && heartbeat <= c.claimedAt.value
  }

  // What the decision must be, without reference to a loop: the ceiling first, then the earliest
  // listed claim that is stuck.
  ghost predicate Judges(now: int, heartbeat: int, state: Option<ContainerState>, claims: seq<Claim>,
                         d: StuckDecision) {
    match d
    case KillCeiling(age, ceiling) =>
      OverCeiling(now, heartbeat, state) && age == now - heartbeat && ceiling == AtLeast(ABSOLUTE_CEILING_MS, state)
    case Ok =>
      !OverCeiling(now, heartbeat, state)
      && forall i :: 0 <= i < |claims| ==> !ClaimStuck(now, heartbeat, state, claims[i])
    case KillClaim(id, age, tolerance) =>
      !OverCeiling(now, heartbeat, state) && tolerance == AtLeast(CLAIM_STUCK_MS, state)
      && exists i :: 0 <= i < |claims| && ClaimStuck(now, heartbeat, state, claims[i])
           && id == claims[i].messageId && age == now - claims[i].claimedAt.value
           && forall j :: 0 <= j < i ==> !ClaimStuck(now, heartbeat, state, claims[j])
  }

  method DecideStuckAction(now: int, heartbeat: int, state: Option<ContainerState>, claims: seq<Claim>)
    returns (d: StuckDecision)
    ensures Judges(now, heartbeat, state, claims, d)
  {
    var declared := match BashTimeoutMs(state) case Some(ms) => ms case None => 0;
    if heartbeat != 0 {
      var age := now - heartbeat;
      var ceiling := Max(ABSOLUTE_CEILING_MS, declared);
      if age > ceiling {
        return KillCeiling(age, ceiling);
      }
    }
    var tolerance := Max(CLAIM_STUCK_MS, declared);
    for i := 0 to |claims|
      invariant !OverCeiling(now, heartbeat, state)
      invariant forall j :: 0 <= j < i ==> !ClaimStuck(now, heartbeat, state, claims[j])
    {
      var claim := claims[i];
      if claim.claimedAt.None? { continue; }
      var claimAge := now - claim.claimedAt.value;
      if claimAge <= tolerance { continue; }
      if heartbeat > claim.claimedAt.value { continue; }
      return KillClaim(claim.messageId, claimAge, tolerance);
    }
    return Ok;
  }

  // ---------------------------------------------------------------- tables

  datatype Status = Pending | Completed | Failed
  datatype ProcessAfter = Immediately | Garbled | At(ms: int)
  datatype MessageIn = MessageIn(status: Status, trigger: bool, tries: nat, processAfter: ProcessAfter)
  datatype AckStatus = Processing | AckCompleted | AckFailed
  datatype Ack = Ack(status: AckStatus, changed: Option<int>)

  function FloorSec(ms: int): int { ms - ms % 1000 }

  function Pow2(n: nat): nat { if n == 0 then 1 else 2 * Pow2(n - 1) }

  function BackoffSec(tries: nat): nat { BACKOFF_BASE_MS * Pow2(tries) / 1000 }

  predicate Due(m: MessageIn, now: int) {
    m.status == Pending && m.trigger
    && (m.processAfter.Immediately? || (m.processAfter.At? && FloorSec(m.processAfter.ms) <= FloorSec(now)))
  }

  // A pending row that the reset loop acts on: not already scheduled for the future.
  predicate Resettable(m: MessageIn, now: int) {
    m.status == Pending && !(m.processAfter.At? && m.processAfter.ms > now)
  }

  function ResetMessage(m: MessageIn, now: int): MessageIn {
    if !Resettable(m, now) then m
    else if m.tries >= MAX_TRIES then m.(status := Failed)
    else m.(tries := m.tries + 1, processAfter := At(FloorSec(now) + 1000 * BackoffSec(m.tries)))
  }

  function Claimed(acks: map<string, Ack>): set<string> {
    set id | id in acks && acks[id].status == Processing
  }

  predicate Settled(acks: map<string, Ack>, id: string) {
    id in acks && acks[id].status != Processing
  }

  function SyncedMessages(messages: map<string, MessageIn>, acks: map<string, Ack>): map<string, MessageIn> {
    map id | id in messages :: if Settled(acks, id) then messages[id].(status := Completed) else messages[id]
  }

  function ResetMessages(messages: map<string, MessageIn>, listed: set<string>, now: int): map<string, MessageIn> {
    map id | id in messages :: if id in listed then ResetMessage(messages[id], now) else messages[id]
  }

  function WithoutOrphans(acks: map<string, Ack>): map<string, Ack> {
    map id | id in acks && acks[id].status != Processing :: acks[id]
  }

  // The rows getProcessingClaims returns, in any order SQLite chooses.
  ghost predicate ListsClaims(claims: seq<Claim>, acks: map<string, Ack>) {
    && (forall i, j :: 0 <= i < j < |claims| ==> claims[i].messageId != claims[j].messageId)
    && (forall i :: 0 <= i < |claims| ==> claims[i].messageId in Claimed(acks)
                                          && claims[i].claimedAt == acks[claims[i].messageId].changed)
    && (forall id :: id in Claimed(acks) ==> exists i :: 0 <= i < |claims| && claims[i].messageId == id)
  }

  ghost predicate AnyClaimStuck(now: int, heartbeat: int, state: Option<ContainerState>, acks: map<string, Ack>) {
    exists id :: id in Claimed(acks) && ClaimStuck(now, heartbeat, state, Claim(id, acks[id].changed))
  }

  ghost predicate JudgedStuck(now: int, heartbeat: int, state: Option<ContainerState>, acks: map<string, Ack>) {
    OverCeiling(now, heartbeat, state) || AnyClaimStuck(now, heartbeat, state, acks)
  }

  // The limits in numbers: a Bash call with a declared timeout is given that time if it is longer than
  // the minute of silence behind a claim, or than the half hour without a heartbeat; nothing else is.
  ghost predicate Limits(state: Option<ContainerState>, tolerance: int, ceiling: int) {
    if state.Some? && state.value.currentTool == Some("Bash") && state.value.declaredTimeoutMs.Some? then
      var t := state.value.declaredTimeoutMs.value;
      tolerance == (if t > 60_000 then t else 60_000) && ceiling == (if t > 1_800_000 then t else 1_800_000)
    else tolerance == 60_000 && ceiling == 1_800_000
  }

  ghost predicate SilentSince(now: int, heartbeat: int, c: Claim, tolerance: int) {
    c.claimedAt.Some? && now - c.claimedAt.value > tolerance && heartbeat <= c.claimedAt.value
  }

  // The decision in numbers: the ceiling on the age of a heartbeat that there is, else the first claim
  // with no sign of life for longer than the tolerance.
  lemma DecisionInNumbers(now: int, heartbeat: int, state: Option<ContainerState>, claims: seq<Claim>,
                          d: StuckDecision, tolerance: int, ceiling: int)
    requires Judges(now, heartbeat, state, claims, d) && Limits(state, tolerance, ceiling)
    ensures d.KillCeiling? <==> heartbeat != 0 && now - heartbeat > ceiling
    ensures d.KillCeiling? ==> d == KillCeiling(now - heartbeat, ceiling)
    ensures d.KillClaim? <==> !d.KillCeiling?
                              && exists i :: 0 <= i < |claims| && SilentSince(now, heartbeat, claims[i], tolerance)
    ensures d.KillClaim? ==>
            exists i :: 0 <= i < |claims| && SilentSince(now, heartbeat, claims[i], tolerance)
              && d == KillClaim(claims[i].messageId, now - claims[i].claimedAt.value, tolerance)
              && forall j :: 0 <= j < i ==> !SilentSince(now, heartbeat, claims[j], tolerance)
  {
    assert forall i :: 0 <= i < |claims| ==>
      (SilentSince(now, heartbeat, claims[i], tolerance) <==> ClaimStuck(now, heartbeat, state, claims[i]));
  }

  // The verdict to kill does not depend on the order in which the claims are listed.
  lemma VerdictIgnoresOrder(now: int, heartbeat: int, state: Option<ContainerState>, acks: map<string, Ack>,
                            claims: seq<Claim>, d: StuckDecision)
    requires ListsClaims(claims, acks)
    requires Judges(now, heartbeat, state, claims, d)
    ensures d.Ok? <==> !JudgedStuck(now, heartbeat, state, acks)
  {
    if AnyClaimStuck(now, heartbeat, state, acks) {
      var id :| id in Claimed(acks) && ClaimStuck(now, heartbeat, state, Claim(id, acks[id].changed));
      var i :| 0 <= i < |claims| && claims[i].messageId == id;
      assert claims[i] == Claim(id, acks[id].changed);
    }
    if d.KillClaim? {
      var i :| 0 <= i < |claims| && ClaimStuck(now, heartbeat, state, claims[i]);
      assert claims[i] == Claim(claims[i].messageId, acks[claims[i].messageId].changed);
    }
  }

  // ---------------------------------------------------------------- one session's host side

  class SessionHost {
    var messages: map<string, MessageIn>
    var acks: map<string, Ack>
    var tool: Option<ContainerState>
    var heartbeat: int           // mtime of the heartbeat file, 0 when absent
    var running: bool            // activeContainers.has(session.id)

    constructor ()
      ensures messages == map[] && acks == map[] && tool == None && heartbeat == 0 && !running
    {
      messages, acks, tool, heartbeat, running := map[], map[], None, 0, false;
    }

    method GetProcessingClaims() returns (claims: seq<Claim>)
      ensures ListsClaims(claims, acks)
    {
      claims := [];
      var rest := acks.Keys;
      while rest != {}
        invariant rest <= acks.Keys
        invariant forall i, j :: 0 <= i < j < |claims| ==> claims[i].messageId != claims[j].messageId
        invariant forall i :: 0 <= i < |claims| ==> claims[i].messageId in Claimed(acks) && claims[i].messageId !in rest
                                                    && claims[i].claimedAt == acks[claims[i].messageId].changed
        invariant forall id :: id in Claimed(acks) && id !in rest ==>
                  exists i :: 0 <= i < |claims| && claims[i].messageId == id
      {
        var id :| id in rest;
        ghost var before := claims;
        if acks[id].status == Processing {
          claims := claims + [Claim(id, acks[id].changed)];
          assert claims[|before|].messageId == id;
        }
        assert forall i :: 0 <= i < |before| ==> claims[i] == before[i];
        rest := rest - {id};
      }
    }

    method SyncProcessingAcks()
      modifies this`messages
      ensures messages == SyncedMessages(old(messages), acks)
    {
      var rest := acks.Keys;
      while rest != {}
        invariant rest <= acks.Keys
        invariant messages.Keys == old(messages).Keys
        invariant forall id :: id in messages ==>
          messages[id] == if Settled(acks, id) && id !in rest then old(messages)[id].(status := Completed)
                          else old(messages)[id]
      {
        var id :| id in rest;
        if acks[id].status != Processing && id in messages && messages[id].status != Completed {
          messages := messages[id := messages[id].(status := Completed)];
        }
        rest := rest - {id};
      }
    }

    // The loop body for one claim.
    method ResetRow(id: string, now: int)
      modifies this`messages
      ensures messages == if id in old(messages) then old(messages)[id := ResetMessage(old(messages)[id], now)]
                          else old(messages)
    {
      if id !in messages || messages[id].status != Pending { return; }
      var msg := messages[id];
      if msg.processAfter.At? && msg.processAfter.ms > now { return; }
      if msg.tries >= MAX_TRIES {
        messages := messages[id := msg.(status := Failed)];
      } else {
        var backoffMs := BACKOFF_BASE_MS * Pow2(msg.tries);
        var backoffSec := backoffMs / 1000;
        messages := messages[id := msg.(tries := msg.tries + 1, processAfter := At(FloorSec(now) + 1000 * backoffSec))];
      }
    }

    // The loop over the claims.
    method ResetRows(claims: seq<Claim>, now: int)
      requires forall i, j :: 0 <= i < j < |claims| ==> claims[i].messageId != claims[j].messageId
      modifies this`messages
      ensures messages.Keys == old(messages).Keys
      ensures forall j :: 0 <= j < |claims| && claims[j].messageId in messages
                          ==> messages[claims[j].messageId] == ResetMessage(old(messages)[claims[j].messageId], now)
      ensures forall id :: id in messages && (forall j :: 0 <= j < |claims| ==> claims[j].messageId != id)
                           ==> messages[id] == old(messages)[id]
    {
      for i := 0 to |claims|
        invariant messages.Keys == old(messages).Keys
        invariant forall j :: i <= j < |claims| && claims[j].messageId in messages
                              ==> messages[claims[j].messageId] == old(messages)[claims[j].messageId]
        invariant forall j :: 0 <= j < i && claims[j].messageId in messages
                              ==> messages[claims[j].messageId] == ResetMessage(old(messages)[claims[j].messageId], now)
        invariant forall id :: id in messages && (forall j :: 0 <= j < |claims| ==> claims[j].messageId != id)
                               ==> messages[id] == old(messages)[id]
      {
        ResetRow(claims[i].messageId, now);
      }
    }

    method ResetStuckProcessingRows(now: int, deleteOk: bool)
      modifies this`messages, this`acks
      ensures messages == ResetMessages(old(messages), Claimed(old(acks)), now)
      ensures acks == if deleteOk then WithoutOrphans(old(acks)) else old(acks)
    {
      var claims := GetProcessingClaims();
      ResetRows(claims, now);
      forall id | id in messages && id in Claimed(acks)
        ensures messages[id] == ResetMessage(old(messages)[id], now)
      {
        var j :| 0 <= j < |claims| && claims[j].messageId == id;
      }
      if deleteOk {
        acks := map id | id in acks && acks[id].status != Processing :: acks[id];
      }
    }

    ghost function Snapshot(now: int): (s: State)
      reads this
    {
      State(now, messages, acks, tool, heartbeat, running)
    }

    // One sweep of the session. wakeOk and deleteOk are the outcomes of the spawn and of the orphan-claim
    // delete; the wake takes `spent` milliseconds.
    method SweepSession(now: int, wakeOk: bool, spent: nat, deleteOk: bool) returns (killRequested: bool)
      modifies this
      ensures Snapshot(now + spent) == Sweep(old(Snapshot(now)), wakeOk, spent, deleteOk)
      ensures var woken := Woken(old(Snapshot(now)), wakeOk, spent);
              killRequested <==> woken.running && JudgedStuck(woken.now, woken.heartbeat, woken.tool, woken.acks)
    {
      WakeIfDue(now, wakeOk);
      ghost var before := Snapshot(now);
      assert Snapshot(now + spent) == before.(now := before.now + spent);
      killRequested := CheckSession(now + spent, deleteOk);
    }

    // The stuck check of a running container, or the cleanup behind one that is gone.
    method CheckSession(at: int, deleteOk: bool) returns (killRequested: bool)
      modifies this`messages, this`acks
      ensures Snapshot(at) == Check(old(Snapshot(at)), deleteOk)
      ensures killRequested <==> old(running && JudgedStuck(at, heartbeat, tool, acks))
    {
      killRequested := false;
      if running {
        var claims := GetProcessingClaims();
        var d := DecideStuckAction(at, heartbeat, tool, claims);
        VerdictIgnoresOrder(at, heartbeat, tool, acks, claims, d);
        killRequested := !d.Ok?;
      }
      if !running || killRequested {
        ResetStuckProcessingRows(at, deleteOk);
      }
    }

    // The sync and the wake.
    method WakeIfDue(now: int, wakeOk: bool)
      modifies this`messages, this`running, this`heartbeat
      ensures Snapshot(now) == WakeDue(SyncAcks(old(Snapshot(now))), wakeOk)
    {
      SyncProcessingAcks();
      var due := set id | id in messages && Due(messages[id], now);
      assert due == DueSet(SyncAcks(old(Snapshot(now))));
      if |due| > 0 && !running && wakeOk {
        running, heartbeat := true, 0;
      }
    }
  }

  // ---------------------------------------------------------------- the protocol

  datatype State = State(now: int, messages: map<string, MessageIn>, acks: map<string, Ack>,
                         tool: Option<ContainerState>, heartbeat: int, running: bool)

  function SyncAcks(s: State): State { s.(messages := SyncedMessages(s.messages, s.acks)) }

  function DueSet(s: State): set<string> { set id | id in s.messages && Due(s.messages[id], s.now) }

  // Spawning removes the heartbeat file. A router wake and a sweep wake have the same effect.
  function Spawn(s: State): State { s.(running := true, heartbeat := 0) }

  function WakeDue(s: State, ok: bool): State {
    if DueSet(s) != {} && !s.running && ok then Spawn(s) else s
  }

  // The claims listed are reset; what is deleted are the claims there are by then.
  function ResetListed(s: State, listed: set<string>, deleteOk: bool): State {
    s.(messages := ResetMessages(s.messages, listed, s.now),
       acks := if deleteOk then WithoutOrphans(s.acks) else s.acks)
  }

  function Reset(s: State, deleteOk: bool): State { ResetListed(s, Claimed(s.acks), deleteOk) }

  ghost predicate Resets(s: State) {
    !s.running || JudgedStuck(s.now, s.heartbeat, s.tool, s.acks)
  }

  ghost function Check(s: State, deleteOk: bool): State {
    if Resets(s) then Reset(s, deleteOk) else s
  }

  // The state that the stuck check sees.
  function Woken(s: State, wakeOk: bool, spent: nat): State {
    var woken := WakeDue(SyncAcks(s), wakeOk);
    woken.(now := woken.now + spent)
  }

  ghost function Sweep(s: State, wakeOk: bool, spent: nat, deleteOk: bool): State {
    Check(Woken(s, wakeOk, spent), deleteOk)
  }
}
