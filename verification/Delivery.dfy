// src/delivery.ts: draining a session's outbound queue through the channel adapter.
//
// deliverMessage is its outcome: the adapter accepted (Sent), it returned without an adapter call
// (Skipped: no adapter, no routing fields, a system action), it threw before acceptance (Refused),
// or acceptance was followed by an exception before the row was marked (SentThenThrew): markDelivered
// failed, or the adapter threw although the platform had taken the message. Clearing the outbox catches
// its own errors.
module Delivery {
  import opened Wrappers

  const MAX_DELIVERY_ATTEMPTS := 3

  type SessionId = string
  type MessageId = string

  datatype Outcome = Sent | Skipped | Refused | SentThenThrew
  datatype Row = DeliveredRow | FailedRow

  // The durable `delivered` table and the in-memory attempt counters.
  datatype Tables = Tables(delivered: map<MessageId, Row>, attempts: map<MessageId, nat>)

  function Count(m: map<MessageId, nat>, id: MessageId): nat { if id in m then m[id] else 0 }

  function InsertOrIgnore(delivered: map<MessageId, Row>, id: MessageId, row: Row): map<MessageId, Row> {
    if id in delivered then delivered else delivered[id := row]
  }

  predicate Threw(o: Outcome) { o.Refused? || o.SentThenThrew? }

  function Settle(t: Tables, id: MessageId, o: Outcome): Tables {
    if !Threw(o) then Tables(InsertOrIgnore(t.delivered, id, DeliveredRow), t.attempts - {id})
    else
      var n := Count(t.attempts, id) + 1;
      if n >= MAX_DELIVERY_ATTEMPTS then Tables(InsertOrIgnore(t.delivered, id, FailedRow), t.attempts - {id})
      else t.(attempts := t.attempts[id := n])
  }

  function SettleAll(t: Tables, ids: seq<MessageId>, outcome: MessageId -> Outcome): Tables
    decreases |ids|
  {
    if ids == [] then t else SettleAll(Settle(t, ids[0], outcome(ids[0])), ids[1..], outcome)
  }

  function Undelivered(due: seq<MessageId>, delivered: map<MessageId, Row>): seq<MessageId> {
    if due == [] then []
    else
      var rest := Undelivered(due[1..], delivered);
      if due[0] in delivered then rest else [due[0]] + rest
  }

  lemma {:induction false} UndeliveredAre(due: seq<MessageId>, delivered: map<MessageId, Row>, r: seq<MessageId>)
    requires r == Undelivered(due, delivered)
    ensures forall m :: m in r <==> m in due && m !in delivered
    ensures NoDuplicates(due) ==> NoDuplicates(r)
    decreases |due|
  {
    if due != [] {
      UndeliveredAre(due[1..], delivered, Undelivered(due[1..], delivered));
    }
  }

  // r is due read at strictly increasing places.
  ghost predicate ReadInOrder(due: seq<MessageId>, r: seq<MessageId>, at: seq<nat>) {
    && |at| == |r|
    && (forall i, j :: 0 <= i < j < |at| ==> at[i] < at[j])
    && (forall i :: 0 <= i < |at| ==> at[i] < |due| && due[at[i]] == r[i])
  }

  // What is left of the outbox keeps its order.
  lemma {:induction false} OrderIsKept(due: seq<MessageId>, delivered: map<MessageId, Row>, r: seq<MessageId>)
    returns (at: seq<nat>)
    requires r == Undelivered(due, delivered)
    ensures ReadInOrder(due, r, at)
    decreases |due|
  {
    at := [];
    if due != [] {
      var later := OrderIsKept(due[1..], delivered, Undelivered(due[1..], delivered));
      var shifted := seq(|later|, i requires 0 <= i < |later| => later[i] + 1);
      at := if due[0] in delivered then shifted else [0] + shifted;
    }
  }

  // How one attempt is recorded: a message sent or skipped is delivered, a third throw makes it failed, an
  // earlier one is counted, and a record or counter of another message is never touched.
  lemma SettledAsAttempted(t: Tables, id: MessageId, o: Outcome, other: MessageId)
    requires id !in t.delivered
    ensures var t' := Settle(t, id, o); var n := Count(t.attempts, id);
            && (o == Sent || o == Skipped ==> t'.delivered == t.delivered[id := DeliveredRow] && id !in t'.attempts)
            && (o == Refused || o == SentThenThrew ==>
                  if n < 2 then t'.delivered == t.delivered && id in t'.attempts && t'.attempts[id] == n + 1
                  else t'.delivered == t.delivered[id := FailedRow] && id !in t'.attempts)
            && (other != id ==> (other in t'.attempts <==> other in t.attempts)
                                && Count(t'.attempts, other) == Count(t.attempts, other))
  {
  }

  predicate NoDuplicates(s: seq<MessageId>) {
    forall i, j :: 0 <= i < j < |s| ==> s[i] != s[j]
  }

  // ---------------------------------------------------------------- one drain, in the program's form

  class DeliveryHost {
    var outbox: map<SessionId, seq<MessageId>>
    var delivered: map<MessageId, Row>
    var deliveryAttempts: map<MessageId, nat>
    var inflightDeliveries: set<SessionId>

    constructor (outbox: map<SessionId, seq<MessageId>>, delivered: map<MessageId, Row>)
      ensures this.outbox == outbox && this.delivered == delivered
      ensures deliveryAttempts == map[] && inflightDeliveries == {}
    {
      this.outbox, this.delivered, deliveryAttempts, inflightDeliveries := outbox, delivered, map[], {};
    }

    ghost function Stored(): Tables
      reads this
    {
      Tables(delivered, deliveryAttempts)
    }

    function Due(s: SessionId): seq<MessageId>
      reads this
    {
      if s in outbox then outbox[s] else []
    }

    // `outcome` says how each deliverMessage ends; `attempted` lists the calls made, in order.
    method DeliverSessionMessages(s: SessionId, outcome: MessageId -> Outcome) returns (attempted: seq<MessageId>)
      modifies this`delivered, this`deliveryAttempts, this`inflightDeliveries
      ensures inflightDeliveries == old(inflightDeliveries)
      ensures s in old(inflightDeliveries) ==> attempted == [] && Stored() == old(Stored())
      ensures s !in old(inflightDeliveries) ==>
                attempted == Undelivered(Due(s), old(delivered))
                && Stored() == SettleAll(old(Stored()), attempted, outcome)
    {
      attempted := [];
      if s in inflightDeliveries { return; }
      inflightDeliveries := inflightDeliveries + {s};
      attempted := DrainSession(s, outcome);
      inflightDeliveries := inflightDeliveries - {s};
    }

    method DrainSession(s: SessionId, outcome: MessageId -> Outcome) returns (attempted: seq<MessageId>)
      modifies this`delivered, this`deliveryAttempts
      ensures attempted == Undelivered(Due(s), old(delivered))
      ensures Stored() == SettleAll(old(Stored()), attempted, outcome)
    {
      attempted := [];
      var undelivered := Undelivered(Due(s), delivered);
      for i := 0 to |undelivered|
        invariant attempted == undelivered[..i]
        invariant SettleAll(Stored(), undelivered[i..], outcome) == SettleAll(old(Stored()), undelivered, outcome)
      {
        var msg := undelivered[i];
        attempted := attempted + [msg];
        assert undelivered[i..][0] == msg && undelivered[i..][1..] == undelivered[i + 1..];
        SettleMessage(msg, outcome(msg));
      }
    }

    method SettleMessage(msg: MessageId, o: Outcome)
      modifies this`delivered, this`deliveryAttempts
      ensures Stored() == Settle(old(Stored()), msg, o)
    {
      if !Threw(o) {
        if msg !in delivered { delivered := delivered[msg := DeliveredRow]; }
        deliveryAttempts := deliveryAttempts - {msg};
      } else {
        var attempts := (if msg in deliveryAttempts then deliveryAttempts[msg] else 0) + 1;
        deliveryAttempts := deliveryAttempts[msg := attempts];
        if attempts >= MAX_DELIVERY_ATTEMPTS {
          if msg !in delivered { delivered := delivered[msg := FailedRow]; }
          deliveryAttempts := deliveryAttempts - {msg};
          assert deliveryAttempts == old(deliveryAttempts) - {msg};
        }
      }
    }
  }

  // ---------------------------------------------------------------- the pollers as a protocol

  // A poll loop between two awaits. `reply` is the ended deliverMessage call for todo[0].
  datatype Poller =
    | Walking(rest: seq<SessionId>)
    | Draining(session: SessionId, todo: seq<MessageId>, reply: Option<Outcome>, rest: seq<SessionId>)

  // accepted, faults, calls and failures are histories: adapter acceptances, acceptances followed by an
  // exception, and, since the last restart, deliverMessage calls and thrown ones.
  datatype Log = Log(restarts: nat, accepted: map<MessageId, nat>, faults: map<MessageId, nat>,
                     calls: map<MessageId, nat>, failures: map<MessageId, nat>)

  datatype Host = Host(
    outbox: map<SessionId, seq<MessageId>>,
    tables: Tables,
    inflight: set<SessionId>,
    pollers: map<nat, Poller>,
    log: Log)

  datatype Step =
    | Append(s: SessionId, id: MessageId)
    | Tick(p: nat, sessions: seq<SessionId>)
    | Enter(p: nat)
    | Call(p: nat, outcome: Outcome)
    | Reply(p: nat)
    | Leave(p: nat)
    | Throw(p: nat)
    | Restart

  function Due(h: Host, s: SessionId): seq<MessageId> { if s in h.outbox then h.outbox[s] else [] }

  ghost predicate Known(h: Host, id: MessageId) {
    exists s :: s in h.outbox && id in h.outbox[s]
  }

  function Bump(m: map<MessageId, nat>, id: MessageId, on: bool): map<MessageId, nat> {
    if on then m[id := Count(m, id) + 1] else m
  }

  function Called(log: Log, id: MessageId, o: Outcome): Log {
    Log(log.restarts, Bump(log.accepted, id, o.Sent? || o.SentThenThrew?), Bump(log.faults, id, o.SentThenThrew?),
        Bump(log.calls, id, true), Bump(log.failures, id, Threw(o)))
  }

  ghost function Next(h: Host, step: Step): Host {
    match step
    case Append(s, id) =>
      if Known(h, id) then h else h.(outbox := h.outbox[s := Due(h, s) + [id]])
    case Tick(p, sessions) =>
      if p in h.pollers then h else h.(pollers := h.pollers[p := Walking(sessions)])
    case Enter(p) =>
      if p in h.pollers && h.pollers[p].Walking? then
        var rest := h.pollers[p].rest;
        if rest == [] then h.(pollers := h.pollers - {p})
        else if rest[0] in h.inflight then h.(pollers := h.pollers[p := Walking(rest[1..])])
        else h.(inflight := h.inflight + {rest[0]},
                pollers := h.pollers[p :=
                  Draining(rest[0], Undelivered(Due(h, rest[0]), h.tables.delivered), None, rest[1..])])
      else h
    case Call(p, o) =>
      if p in h.pollers && h.pollers[p].Draining? && h.pollers[p].todo != [] && h.pollers[p].reply == None then
        var id := h.pollers[p].todo[0];
        h.(pollers := h.pollers[p := h.pollers[p].(reply := Some(o))], log := Called(h.log, id, o))
      else h
    case Reply(p) =>
      if p in h.pollers && h.pollers[p].Draining? && h.pollers[p].todo != [] && h.pollers[p].reply.Some? then
        var d := h.pollers[p];
        h.(tables := Settle(h.tables, d.todo[0], d.reply.value),
           pollers := h.pollers[p := d.(todo := d.todo[1..], reply := None)])
      else h
    case Leave(p) =>
      if p in h.pollers && h.pollers[p].Draining? && h.pollers[p].todo == []
      then h.(inflight := h.inflight - {h.pollers[p].session}, pollers := h.pollers[p := Walking(h.pollers[p].rest)])
      else h
    case Throw(p) =>
      // An exception that leaves the drain: the finally releases the session, the tick is over.
      if p in h.pollers && h.pollers[p].Draining? && h.pollers[p].reply == None
      then h.(inflight := h.inflight - {h.pollers[p].session}, pollers := h.pollers - {p})
      else h
    case Restart =>
      h.(tables := h.tables.(attempts := map[]), inflight := {}, pollers := map[],
         log := h.log.(restarts := h.log.restarts + 1, calls := map[], failures := map[]))
  }

  ghost function Run(h: Host, steps: seq<Step>): Host
    decreases |steps|
  {
    if steps == [] then h else Run(Next(h, steps[0]), steps[1..])
  }

  const EMPTY := Host(map[], Tables(map[], map[]), {}, map[], Log(0, map[], map[], map[], map[]))
}
