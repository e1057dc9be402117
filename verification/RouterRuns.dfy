// Runs of inbound routing: any number of messages of one chat in mid fan-out at once. A fan-out awaits
// a container start behind each engaged wiring, and the next message is routed meanwhile.
module RouterRuns {
  import opened Wrappers
  import opened SessionManager
  import opened Router

  datatype Place = Place(wirings: seq<Wiring>, chat: Chat, adapter: Option<Adapter>)

  // A message on its way through the wirings; the store in its tally is the one its last turn left.
  datatype Fan = Fan(m: Message, next: nat, tally: Outcome)

  datatype World = World(store: Store, fans: seq<Fan>)

  // A message reaches the loop, a message takes the turn of its next wiring, or a session is found or
  // created for another chat.
  datatype Step = Arrive(m: Message) | Turn(f: nat) | Elsewhere(call: Call)

  predicate TurnAt(w: World, step: Step, p: Place, k: nat) {
    step.Turn? && step.f < |w.fans| && w.fans[step.f].next == k < |p.wirings|
  }

  function After(w: World, step: Step, p: Place): World {
    match step
    case Arrive(m) => w.(fans := w.fans + [Fan(m, 0, Start(w.store))])
    case Turn(f) =>
      if f < |w.fans| && w.fans[f].next < |p.wirings| then
        var fan := w.fans[f];
        var tally := FanOutOne(fan.tally.(store := w.store), p.wirings[fan.next], fan.m, p.chat, p.adapter);
        World(tally.store, w.fans[f := Fan(fan.m, fan.next + 1, tally)])
      else w
    case Elsewhere(call) => w.(store := Next(w.store, call))
  }

  // The world before step n.
  function At(w: World, steps: seq<Step>, p: Place, n: nat): World
    requires n <= |steps|
    decreases n
  {
    if n == 0 then w else After(At(w, steps, p, n - 1), steps[n - 1], p)
  }

  // No session is closed, and calls from elsewhere are for other chats.
  ghost predicate OtherChats(steps: seq<Step>, chat: Chat) {
    forall i :: 0 <= i < |steps| && steps[i].Elsewhere? ==> steps[i].call.Find? && steps[i].call.chat != Some(chat.id)
  }

  ghost predicate Setting(p: Place, k: nat, t: Option<string>) {
    && k < |p.wirings| && OnePerAgent(p.wirings) && p.wirings[k].engage.MentionSticky?
       && !p.wirings[k].sessionMode.AgentShared?
    && t != Some("") && p.chat.id != "" && p.chat.isGroup && Threaded(p.adapter)
  }

  // A turn of wiring k, for a message of the thread, that opens the session when there is none yet.
  predicate Opens(w: World, step: Step, p: Place, k: nat, t: Option<string>) {
    TurnAt(w, step, p, k)
    && var m := w.fans[step.f].m;
       m.thread == t && p.wirings[k].agent in m.agentGroups
       && if m.isMention then GatesPass(p.wirings[k], m) else p.wirings[k].policy.Accumulate?
  }

  ghost predicate InThread(w: World, p: Place, k: nat, t: Option<string>)
    requires k < |p.wirings|
  {
    HasSession(w.store.rows, p.wirings[k].agent, p.chat.id, t)
  }

  lemma ElsewhereEffect(w: World, call: Call, p: Place, k: nat, t: Option<string>)
    requires Setting(p, k, t) && call.Find? && call.chat != Some(p.chat.id)
    ensures InThread(After(w, Elsewhere(call), p), p, k, t) <==> InThread(w, p, k, t)
  {
    ResolveEffect(w.store, call.agent, call.chat, call.thread, call.mode, call.now, p.wirings[k].agent, p.chat.id, t);
  }

  // A turn makes a difference to the session of wiring k and the thread only if it is a turn of wiring k
  // that opens it.
  lemma TurnEffect(w: World, f: nat, p: Place, k: nat, t: Option<string>)
    requires Setting(p, k, t)
    ensures InThread(After(w, Turn(f), p), p, k, t) <==> InThread(w, p, k, t) || Opens(w, Turn(f), p, k, t)
  {
    if f < |w.fans| && w.fans[f].next < |p.wirings| {
      var fan := w.fans[f];
      OneWiringEffect(fan.tally.(store := w.store), p.wirings[fan.next], fan.m, p.chat, p.adapter,
                      p.wirings[k].agent, p.chat.id, t);
      FindIsHas(w.store.rows, p.wirings[k].agent, p.chat.id, t);
    }
  }

  lemma StepEffect(w: World, step: Step, p: Place, k: nat, t: Option<string>)
    requires Setting(p, k, t) && (step.Elsewhere? ==> step.call.Find? && step.call.chat != Some(p.chat.id))
    ensures InThread(After(w, step, p), p, k, t) <==> InThread(w, p, k, t) || Opens(w, step, p, k, t)
  {
    match step
    case Arrive(_) =>
    case Turn(f) => TurnEffect(w, f, p, k, t);
    case Elsewhere(call) => ElsewhereEffect(w, call, p, k, t);
  }

  ghost predicate OpenedBefore(w: World, steps: seq<Step>, p: Place, k: nat, t: Option<string>, n: nat)
    requires n <= |steps|
  {
    exists j :: 0 <= j < n && OpensAt(w, steps, p, k, t, j)
  }

  predicate OpensAt(w: World, steps: seq<Step>, p: Place, k: nat, t: Option<string>, j: nat)
    requires j < |steps|
  {
    Opens(At(w, steps, p, j), steps[j], p, k, t)
  }

  lemma OpenedSnoc(w: World, steps: seq<Step>, p: Place, k: nat, t: Option<string>, n: nat)
    requires n < |steps|
    ensures OpenedBefore(w, steps, p, k, t, n + 1)
            <==> OpenedBefore(w, steps, p, k, t, n) || OpensAt(w, steps, p, k, t, n)
  {
  }

  lemma OneStepMore(w: World, steps: seq<Step>, p: Place, k: nat, t: Option<string>, n: nat)
    requires Setting(p, k, t) && OtherChats(steps, p.chat) && n < |steps|
    ensures InThread(At(w, steps, p, n + 1), p, k, t)
            <==> InThread(At(w, steps, p, n), p, k, t) || OpensAt(w, steps, p, k, t, n)
  {
    StepEffect(At(w, steps, p, n), steps[n], p, k, t);
  }

  // In every interleaving the thread's session exists before step n if and only if an earlier turn opened it.
  lemma {:induction false} SessionExistsWhen(w: World, steps: seq<Step>, p: Place, k: nat, t: Option<string>, n: nat)
    requires Setting(p, k, t) && OtherChats(steps, p.chat) && n <= |steps| && !InThread(w, p, k, t)
    ensures InThread(At(w, steps, p, n), p, k, t) <==> OpenedBefore(w, steps, p, k, t, n)
    decreases n
  {
    if n > 0 {
      SessionExistsWhen(w, steps, p, k, t, n - 1);
      OneStepMore(w, steps, p, k, t, n - 1);
      OpenedSnoc(w, steps, p, k, t, n - 1);
    }
  }

  // A turn of wiring k for a mention of the thread that passes both gates.
  predicate MentionTurn(w: World, step: Step, p: Place, k: nat, t: Option<string>) {
    TurnAt(w, step, p, k)
    && var m := w.fans[step.f].m;
       m.thread == t && m.isMention && p.wirings[k].agent in m.agentGroups && GatesPass(p.wirings[k], m)
  }

  // In every interleaving of fan-outs, wiring k engages on the message whose turn step n is if and only
  // if it is a mention or an earlier turn of wiring k in the thread opened the session. Under the `drop`
  // policy that is an earlier turn for a mention that passed both gates; under `accumulate` a turn for
  // any plain message does it too.
  lemma StickyEngagement(w: World, steps: seq<Step>, p: Place, k: nat, t: Option<string>, n: nat, at: World, m: Message)
    requires Setting(p, k, t) && OtherChats(steps, p.chat) && !InThread(w, p, k, t)
    requires n < |steps| && at == At(w, steps, p, n) && TurnAt(at, steps[n], p, k)
    requires m == at.fans[steps[n].f].m && m.thread == t
    ensures Engages(p.wirings[k], m, p.chat, at.store.rows, t) <==> m.isMention || OpenedBefore(w, steps, p, k, t, n)
    ensures p.wirings[k].policy.Drop? ==>
      (Engages(p.wirings[k], m, p.chat, at.store.rows, t)
       <==> m.isMention || exists j :: 0 <= j < n && MentionTurn(At(w, steps, p, j), steps[j], p, k, t))
  {
    SessionExistsWhen(w, steps, p, k, t, n);
    FindIsHas(at.store.rows, p.wirings[k].agent, p.chat.id, t);
    if p.wirings[k].policy.Drop? {
      assert forall j :: 0 <= j < n ==>
        (OpensAt(w, steps, p, k, t, j) <==> MentionTurn(At(w, steps, p, j), steps[j], p, k, t));
    }
  }

  // Arrival order is not enough: a mention has arrived and engaged the first wiring, whose container is
  // being started, when a follow-up arrives. The second wiring's turn for the follow-up comes before its
  // turn for the mention, and it does not engage.
  ghost function Overtaking(m1: Message, m2: Message): seq<Step> { [Arrive(m1), Turn(0), Arrive(m2), Turn(1), Turn(1)] }

  lemma Overtaken(w: World, p: Place, m1: Message, m2: Message, at: World)
    requires w.fans == [] && |p.wirings| == 2 && p.wirings[0].engage.Mention? && p.wirings[0].policy.Drop?
    requires !m2.isMention && at == At(w, Overtaking(m1, m2), p, 4)
    ensures at.fans == [At(w, Overtaking(m1, m2), p, 2).fans[0], Fan(m2, 1, at.fans[1].tally)]
    ensures at.store == At(w, Overtaking(m1, m2), p, 2).store
    ensures at.fans[0].m == m1 && at.fans[0].next == 1
  {
    var steps := Overtaking(m1, m2);
    var w1 := At(w, steps, p, 1);
    assert w1 == World(w.store, [Fan(m1, 0, Start(w.store))]);
    var w2 := At(w, steps, p, 2);
    assert w2.fans[0].m == m1 && w2.fans[0].next == 1 && |w2.fans| == 1;
    var w3 := At(w, steps, p, 3);
    assert w3.fans[1] == Fan(m2, 0, Start(w2.store)) && w3.fans[0] == w2.fans[0] && w3.store == w2.store;
    assert at == After(w3, Turn(1), p);
  }

  lemma FollowUpOvertakesMention(w: World, p: Place, t: Option<string>, m1: Message, m2: Message, at: World)
    requires Setting(p, 1, t) && w.fans == [] && |p.wirings| == 2
    requires p.wirings[0].engage.Mention? && p.wirings[0].policy.Drop?
    requires !InThread(w, p, 1, t) && m1.thread == m2.thread == t
    requires m1.isMention && !m2.isMention
    requires forall k :: 0 <= k < 2 ==> p.wirings[k].agent in m1.agentGroups && GatesPass(p.wirings[k], m1)
    requires at == At(w, Overtaking(m1, m2), p, 4)
    ensures at.fans[0].m == m1 && TurnAt(at, Turn(1), p, 1) && at.fans[1].m == m2
    ensures !Engages(p.wirings[1], m2, p.chat, at.store.rows, t)
  {
    var steps := Overtaking(m1, m2);
    Overtaken(w, p, m1, m2, at);
    var w1 := At(w, steps, p, 1);
    TurnEffect(w1, 0, p, 1, t);
    assert At(w, steps, p, 2) == After(w1, Turn(0), p);
    FindIsHas(at.store.rows, p.wirings[1].agent, p.chat.id, t);
  }

  // With the empty string as thread the follow-up never sticks: the session is stored under "" and
  // looked up under NULL.
  lemma EmptyThreadNeverSticks(s: Store, w: Wiring, m: Message, chat: Chat, adapter: Option<Adapter>)
    requires w.engage.MentionSticky? && chat.id != "" && chat.isGroup
    requires Threaded(adapter) && !w.sessionMode.AgentShared?
    requires m.thread == Some("") && m.isMention && w.agent in m.agentGroups && GatesPass(w, m)
    requires !HasSession(s.rows, w.agent, chat.id, None)
    ensures var s' := FanOutOne(Start(s), w, m, chat, adapter).store;
            HasSession(s'.rows, w.agent, chat.id, Some(""))
              && !Engages(w, m.(isMention := false), chat, s'.rows, Some(""))
  {
    var s' := FanOutOne(Start(s), w, m, chat, adapter).store;
    FindIsHas(s.rows, w.agent, chat.id, None);
    var (r, s1) := Resolve(s, w.agent, Some(chat.id), m.thread, PerThread, m.now);
    assert s' == s1 && s1.rows == s.rows + [r.session];
    assert Keyed(s1.rows[|s.rows|], w.agent, chat.id, Some(""));
    ResolveEffect(s, w.agent, Some(chat.id), m.thread, PerThread, m.now, w.agent, chat.id, None);
    FindIsHas(s1.rows, w.agent, chat.id, None);
  }
}
