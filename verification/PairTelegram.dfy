// setup/pair-telegram.ts: one setup run issues a code, waits for it, and issues another after a wrong guess.
//
// What others do to the store during the k-th wait is waits[k]: the operations up to the first look at the
// store by the file watcher or the poll, up to the second, and so on. The wait also looks at its start.
module PairTelegram {
  import opened Wrappers
  import opened TelegramPairing

  const MAX_REGENERATIONS := 5

  datatype WaitResult = Waiting | Paired(record: Record) | Burned | Lost
  datatype Verdict = StillWaiting | Success(record: Record) | MaxRegenerationsExceeded | OtherError | NoFreeCode

  // waitForPairing's check.
  function Look(store: seq<Record>, code: string): WaitResult {
    match GetPairing(store, code)
    case None => Lost
    case Some(r) => if r.status == Consumed then Paired(r) else if r.status == Invalidated then Burned else Waiting
  }

  // The store after the operations from the j-th on.
  function Batch(store: seq<Record>, ops: seq<Op>, j: nat): seq<Record>
    requires j <= |ops|
    decreases |ops| - j
  {
    if j == |ops| then store else Batch(Next(store, ops[j]), ops, j + 1)
  }

  // The wait from the k-th look on.
  function Wait(store: seq<Record>, code: string, looks: seq<seq<Op>>, k: nat): (WaitResult, seq<Record>)
    requires k <= |looks|
    decreases |looks| - k
  {
    var seen := Look(store, code);
    if seen != Waiting || k == |looks| then (seen, store) else Wait(Batch(store, looks[k], 0), code, looks, k + 1)
  }

  // One run: the random draws of each of its six possible codes, and what happens during each wait.
  datatype Script = Script(intent: Intent, draws: seq<Draws>, waits: seq<seq<seq<Op>>>, now: int)

  type Plan = p: Script | |p.draws| == |p.waits| == MAX_REGENERATIONS + 1
    witness
      var d: Draws := seq(DRAWS, _ => 0);
      Script(Main, seq(MAX_REGENERATIONS + 1, _ => d), seq(MAX_REGENERATIONS + 1, _ => []), 0)

  datatype Report = Report(issued: seq<string>, verdict: Verdict, store: seq<Record>)

  function Prepend(issued: seq<string>, rest: Report): Report { Report(issued + rest.issued, rest.verdict, rest.store) }

  // The loop from its regen-th turn on, waiting for code; issued lists the codes issued from here on.
  function Turns(store: seq<Record>, code: string, p: Plan, regen: nat): Report
    requires regen <= MAX_REGENERATIONS
    decreases MAX_REGENERATIONS - regen
  {
    var (seen, after) := Wait(store, code, p.waits[regen], 0);
    match seen
    case Waiting => Report([], StillWaiting, after)
    case Paired(r) => Report([], Success(r), after)
    case Lost => Report([], OtherError, after)
    case Burned =>
      if regen == MAX_REGENERATIONS then Report([], MaxRegenerationsExceeded, after)
      else
        var (r, created) := Create(after, p.intent, p.draws[regen + 1], p.now);
        if r.None? then Report([], NoFreeCode, created)
        else Prepend([r.value.code], Turns(created, r.value.code, p, regen + 1))
  }

  function Setup(store: seq<Record>, p: Plan): Report {
    var (r, created) := Create(store, p.intent, p.draws[0], p.now);
    if r.None? then Report([], NoFreeCode, created) else Prepend([r.value.code], Turns(created, r.value.code, p, 0))
  }

  method Apply(db: PairingStore, op: Op)
    modifies db
    ensures db.pairings == Next(old(db.pairings), op)
  {
    match op {
      case CreateOp(intent, draws, now) => var _ := db.CreatePairing(intent, draws, now);
      case GuessOp(input, now) => var _ := db.TryConsumeCode(input, now);
    }
  }

  method ApplyAll(db: PairingStore, ops: seq<Op>)
    modifies db
    ensures db.pairings == Batch(old(db.pairings), ops, 0)
  {
    ghost var end := Batch(db.pairings, ops, 0);
    for j := 0 to |ops|
      invariant Batch(db.pairings, ops, j) == end
    {
      Apply(db, ops[j]);
    }
  }

  method WaitForPairing(db: PairingStore, code: string, looks: seq<seq<Op>>) returns (seen: WaitResult)
    modifies db
    ensures (seen, db.pairings) == Wait(old(db.pairings), code, looks, 0)
  {
    var k := 0;
    ghost var end := Wait(db.pairings, code, looks, 0);
    seen := Look(db.pairings, code);
    while seen == Waiting && k < |looks|
      invariant k <= |looks| && seen == Look(db.pairings, code)
      invariant Wait(db.pairings, code, looks, k) == end
    {
      ApplyAll(db, looks[k]);
      k := k + 1;
      seen := Look(db.pairings, code);
    }
  }

  // One turn of the loop: wait, and issue the next code after a wrong guess.
  method Turn(db: PairingStore, code: string, p: Plan, regen: nat) returns (verdict: Option<Verdict>, next: string)
    requires regen <= MAX_REGENERATIONS
    modifies db
    ensures verdict.Some? ==> Turns(old(db.pairings), code, p, regen) == Report([], verdict.value, db.pairings)
    ensures verdict.None? ==>
            regen < MAX_REGENERATIONS
              && Turns(old(db.pairings), code, p, regen) == Prepend([next], Turns(db.pairings, next, p, regen + 1))
  {
    next := code;
    var seen := WaitForPairing(db, code, p.waits[regen]);
    match seen {
      case Waiting => return Some(StillWaiting), next;
      case Paired(r) => return Some(Success(r)), next;
      case Lost => return Some(OtherError), next;
      case Burned =>
    }
    if regen == MAX_REGENERATIONS { return Some(MaxRegenerationsExceeded), next; }
    var record := db.CreatePairing(p.intent, p.draws[regen + 1], p.now);
    if record.None? { return Some(NoFreeCode), next; }
    return None, record.value.code;
  }

  lemma PrependTwice(a: seq<string>, b: seq<string>, t: Report)
    ensures Prepend(a, Prepend(b, t)) == Prepend(a + b, t)
  {
    assert a + (b + t.issued) == (a + b) + t.issued;
  }

  // The loop, once the first code is issued.
  method RunTurns(db: PairingStore, first: string, p: Plan) returns (issued: seq<string>, verdict: Verdict)
    modifies db
    ensures Report(issued, verdict, db.pairings) == Prepend([first], Turns(old(db.pairings), first, p, 0))
  {
    var code, regen := first, 0;
    issued := [first];
    ghost var end := Prepend(issued, Turns(db.pairings, code, p, 0));
    while true
      invariant regen <= MAX_REGENERATIONS && end == Prepend(issued, Turns(db.pairings, code, p, regen))
      decreases MAX_REGENERATIONS - regen
    {
      var done, next := Turn(db, code, p, regen);
      if done.Some? { return issued, done.value; }
      PrependTwice(issued, [next], Turns(db.pairings, next, p, regen + 1));
      code := next;
      issued := issued + [code];
      regen := regen + 1;
    }
  }

  method RunSetup(db: PairingStore, p: Plan) returns (issued: seq<string>, verdict: Verdict)
    modifies db
    ensures Report(issued, verdict, db.pairings) == Setup(old(db.pairings), p)
  {
    var record := db.CreatePairing(p.intent, p.draws[0], p.now);
    if record.None? { return [], NoFreeCode; }
    issued, verdict := RunTurns(db, record.value.code, p);
  }

  // ---------------------------------------------------------------- bounds that hold whatever happens

  lemma {:induction false} WaitSeesConsumed(store: seq<Record>, code: string, looks: seq<seq<Op>>, k: nat,
                                            seen: WaitResult)
    requires k <= |looks| && seen == Wait(store, code, looks, k).0
    ensures seen.Paired? ==> seen.record.code == code && seen.record.status == Consumed
    decreases |looks| - k
  {
    if Look(store, code) != Waiting || k == |looks| {
      FoundHasCode(Sweep(store), code);
    } else {
      WaitSeesConsumed(Batch(store, looks[k], 0), code, looks, k + 1, seen);
    }
  }

  lemma {:induction false} FoundHasCode(store: seq<Record>, code: string)
    ensures FindCode(store, code).Some? ==> FindCode(store, code).value.code == code
    decreases |store|
  {
    if store != [] { FoundHasCode(store[1..], code); }
  }

  function LastCode(code: string, issued: seq<string>): string { if issued == [] then code else issued[|issued| - 1] }

  ghost predicate Bounded(t: Report, code: string, left: nat) {
    && |t.issued| <= left
    && (t.verdict == MaxRegenerationsExceeded ==> |t.issued| == left)
    && (t.verdict.Success? ==> t.verdict.record.status == Consumed && t.verdict.record.code == LastCode(code, t.issued))
  }

  lemma BoundedCons(t: Report, code: string, first: string, left: nat)
    requires Bounded(t, first, left)
    ensures Bounded(Prepend([first], t), code, left + 1)
  {
  }

  // A wrong guess before the last turn: the run goes on with a new code.
  lemma BurnedTurn(store: seq<Record>, code: string, p: Plan, regen: nat, after: seq<Record>, r: Record,
                   created: seq<Record>, rest: Report)
    requires regen < MAX_REGENERATIONS
    requires Wait(store, code, p.waits[regen], 0) == (Burned, after)
    requires Create(after, p.intent, p.draws[regen + 1], p.now) == (Some(r), created)
    requires rest == Turns(created, r.code, p, regen + 1)
    ensures Turns(store, code, p, regen) == Prepend([r.code], rest)
  {
  }

  function VerdictOf(seen: WaitResult, regen: nat): Verdict {
    match seen
    case Waiting => StillWaiting
    case Paired(r) => Success(r)
    case Lost => OtherError
    case Burned => if regen == MAX_REGENERATIONS then MaxRegenerationsExceeded else NoFreeCode
  }

  lemma LastTurn(store: seq<Record>, code: string, p: Plan, regen: nat, seen: WaitResult, after: seq<Record>, t: Report)
    requires regen <= MAX_REGENERATIONS && Wait(store, code, p.waits[regen], 0) == (seen, after)
    requires t == Turns(store, code, p, regen)
    requires seen != Burned || regen == MAX_REGENERATIONS || Create(after, p.intent, p.draws[regen + 1], p.now).0.None?
    ensures t.issued == [] && t.verdict == VerdictOf(seen, regen)
  {
  }

  lemma {:induction false} TurnsBound(store: seq<Record>, code: string, p: Plan, regen: nat, t: Report)
    requires regen <= MAX_REGENERATIONS && t == Turns(store, code, p, regen)
    ensures Bounded(t, code, MAX_REGENERATIONS - regen)
    decreases MAX_REGENERATIONS - regen
  {
    var (seen, after) := Wait(store, code, p.waits[regen], 0);
    if seen == Burned && regen < MAX_REGENERATIONS && Create(after, p.intent, p.draws[regen + 1], p.now).0.Some? {
      var (r, created) := Create(after, p.intent, p.draws[regen + 1], p.now);
      var rest := Turns(created, r.value.code, p, regen + 1);
      BurnedTurn(store, code, p, regen, after, r.value, created, rest);
      TurnsBound(created, r.value.code, p, regen + 1, rest);
      BoundedCons(rest, code, r.value.code, MAX_REGENERATIONS - regen - 1);
    } else {
      LastTurn(store, code, p, regen, seen, after, t);
      WaitSeesConsumed(store, code, p.waits[regen], 0, Wait(store, code, p.waits[regen], 0).0);
    }
  }

  // One run issues at most six codes, gives up for wrong guesses only after all six, and reports
  // success only with a consumed record of the last code issued.
  lemma AtMostSixCodes(store: seq<Record>, p: Plan, s: Report)
    requires s == Setup(store, p)
    ensures |s.issued| <= 6
    ensures s.verdict == MaxRegenerationsExceeded ==> |s.issued| == 6
    ensures s.verdict.Success? ==>
            |s.issued| > 0 && s.verdict.record.status == Consumed && s.verdict.record.code == s.issued[|s.issued| - 1]
  {
    var (r, created) := Create(store, p.intent, p.draws[0], p.now);
    if r.Some? {
      TurnsBound(created, r.value.code, p, 0, Turns(created, r.value.code, p, 0));
    }
  }

  // ---------------------------------------------------------------- exactly what a run does

  function GuessOf(op: Op): Option<string> { if op.GuessOp? then ExtractCode(op.input.text, op.input.bot) else None }

  ghost predicate IsGuess(op: Option<Op>) { op.Some? ==> op.value.GuessOp? && GuessOf(op.value).Some? }

  // The first message from the j-th on that is a code.
  function FirstOf(ops: seq<Op>, j: nat): (op: Option<Op>)
    requires j <= |ops|
    ensures IsGuess(op)
    decreases |ops| - j
  {
    if j == |ops| then None else if GuessOf(ops[j]).Some? then Some(ops[j]) else FirstOf(ops, j + 1)
  }

  // The first message from the k-th look on that is a code.
  function FirstIn(looks: seq<seq<Op>>, k: nat): (op: Option<Op>)
    requires k <= |looks|
    ensures IsGuess(op)
    decreases |looks| - k
  {
    if k == |looks| then None else if FirstOf(looks[k], 0).Some? then FirstOf(looks[k], 0) else FirstIn(looks, k + 1)
  }

  ghost predicate OnlyGuesses(ops: seq<Op>) { forall i :: 0 <= i < |ops| ==> ops[i].GuessOp? }

  ghost predicate OnlyMessages(looks: seq<seq<Op>>) { forall i :: 0 <= i < |looks| ==> OnlyGuesses(looks[i]) }

  ghost predicate Unused(store: seq<Record>, code: string) { forall i :: 0 <= i < |store| ==> store[i].code != code }

  ghost predicate NonePending(store: seq<Record>) { forall i :: 0 <= i < |store| ==> store[i].status != Pending }

  // The newest record waits for code, nothing else is pending, and no older record has that code.
  ghost predicate OnlyLive(store: seq<Record>, code: string) {
    && |store| > 0 && store[|store| - 1].status == Pending && store[|store| - 1].code == code
       && store[|store| - 1].attempts == []
    && forall i :: 0 <= i < |store| - 1 ==> store[i].status != Pending && store[i].code != code
  }

  lemma SweepShifts(store: seq<Record>, kept: seq<Record>)
    requires kept == Sweep(store)
    ensures |kept| <= |store| && forall i :: 0 <= i < |kept| ==> kept[i] == store[i + |store| - |kept|]
  {
    if |store| > KEPT { assert kept == store[|store| - KEPT..] && |kept| == KEPT; }
  }

  lemma LiveSweeps(store: seq<Record>, code: string)
    requires OnlyLive(store, code)
    ensures OnlyLive(Sweep(store), code)
  {
    SweepShifts(store, Sweep(store));
  }

  lemma LiveIsWaiting(store: seq<Record>, code: string)
    requires OnlyLive(store, code)
    ensures Look(store, code) == Waiting && OnlyLive(Sweep(store), code)
  {
    var kept := Sweep(store);
    LiveSweeps(store, code);
    FindLast(kept[..|kept| - 1], kept[|kept| - 1]);
    assert kept[..|kept| - 1] + [kept[|kept| - 1]] == kept;
  }

  lemma RightGuess(store: seq<Record>, code: string, input: Input, now: int, after: seq<Record>)
    requires OnlyLive(store, code) && after == Guess(store, code, input, now).1
    ensures Look(after, code) == Paired(Consume(store[|store| - 1], code, input, now)) && NonePending(after)
  {
    LiveIsWaiting(store, code);
    var kept := Sweep(store);
    var older, r := kept[..|kept| - 1], Consume(kept[|kept| - 1], code, input, now);
    assert FindPending(kept, code, 0) == |kept| - 1;
    assert after == older + [r] && |after| <= KEPT;
    FindLast(older, r);
  }

  lemma MissedAt(kept: seq<Record>, attempt: Attempt, after: seq<Record>)
    requires after == MissAll(kept, attempt)
    ensures |after| == |kept|
    ensures forall i :: 0 <= i < |after| ==> after[i].code == kept[i].code && after[i].status != Pending
    ensures forall i :: 0 <= i < |after| && kept[i].status == Pending ==> after[i].status == Invalidated
  {
    forall i | 0 <= i < |after|
      ensures after[i].code == kept[i].code && after[i].status != Pending
      ensures kept[i].status == Pending ==> after[i].status == Invalidated
    {
      assert after[i] == Missed(kept[i], attempt);
    }
  }

  lemma WrongGuess(store: seq<Record>, code: string, other: string, input: Input, now: int, after: seq<Record>)
    requires OnlyLive(store, code) && other != code && after == Guess(store, other, input, now).1
    ensures Look(after, code) == Burned && NonePending(after)
  {
    LiveIsWaiting(store, code);
    var kept := Sweep(store);
    assert FindPending(kept, other, 0) == |kept|;
    MissedAt(kept, Attempt(other, input.platformId, now, false), after);
    var older, r := after[..|after| - 1], after[|after| - 1];
    assert after == older + [r];
    FindLast(older, r);
  }

  lemma GuessKeepsUnused(store: seq<Record>, guess: string, input: Input, now: int, code: string)
    requires Unused(store, code)
    ensures Unused(Guess(store, guess, input, now).1, code)
  {
    var kept := Sweep(store);
    SweepShifts(store, kept);
    if FindPending(kept, guess, 0) == |kept| {
      MissedAt(kept, Attempt(guess, input.platformId, now, false), Guess(store, guess, input, now).1);
    }
  }

  lemma {:induction false} BatchKeepsUnused(store: seq<Record>, ops: seq<Op>, j: nat, code: string)
    requires Unused(store, code) && OnlyGuesses(ops) && j <= |ops|
    ensures Unused(Batch(store, ops, j), code)
    decreases |ops| - j
  {
    if j < |ops| {
      GuessStep(store, ops[j]);
      if GuessOf(ops[j]).Some? {
        GuessKeepsUnused(store, GuessOf(ops[j]).value, ops[j].input, ops[j].now, code);
      }
      BatchKeepsUnused(Next(store, ops[j]), ops, j + 1, code);
    }
  }

  lemma {:induction false} WaitKeepsUnused(store: seq<Record>, waited: string, looks: seq<seq<Op>>, k: nat,
                                           code: string)
    requires Unused(store, code) && OnlyMessages(looks) && k <= |looks|
    ensures Unused(Wait(store, waited, looks, k).1, code)
    decreases |looks| - k
  {
    if Look(store, waited) == Waiting && k < |looks| {
      BatchKeepsUnused(store, looks[k], 0, code);
      WaitKeepsUnused(Batch(store, looks[k], 0), waited, looks, k + 1, code);
    }
  }

  lemma GuessStep(store: seq<Record>, op: Op)
    requires op.GuessOp?
    ensures Next(store, op) == if GuessOf(op).None? then store else Guess(store, GuessOf(op).value, op.input, op.now).1
  {
  }

  ghost predicate Answered(seen: WaitResult, store: seq<Record>, code: string, op: Op, guess: string)
    requires |store| > 0 && op.GuessOp?
  {
    if guess == code then seen == Paired(Consume(store[|store| - 1], code, op.input, op.now)) else seen == Burned
  }

  lemma LiveGuess(store: seq<Record>, code: string, op: Op, guess: string, next: seq<Record>)
    requires OnlyLive(store, code) && op.GuessOp? && next == Guess(store, guess, op.input, op.now).1
    ensures Answered(Look(next, code), store, code, op, guess) && NonePending(next)
  {
    if guess == code {
      RightGuess(store, code, op.input, op.now, next);
    } else {
      WrongGuess(store, code, guess, op.input, op.now, next);
    }
  }

  lemma MissNone(kept: seq<Record>, attempt: Attempt)
    requires NonePending(kept)
    ensures MissAll(kept, attempt) == kept
  {
    assert forall i :: 0 <= i < |kept| ==> Missed(kept[i], attempt) == kept[i];
  }

  lemma SweepTwice(store: seq<Record>, kept: seq<Record>, code: string)
    requires kept == Sweep(store)
    ensures Look(kept, code) == Look(store, code)
  {
    assert Sweep(kept) == kept;
  }

  // With nothing pending a guess at most drops the oldest record from the file, which a look does anyway.
  lemma SettledGuess(store: seq<Record>, code: string, guess: string, input: Input, now: int, next: seq<Record>)
    requires NonePending(store) && next == Guess(store, guess, input, now).1
    ensures Look(next, code) == Look(store, code) && NonePending(next)
  {
    var kept := Sweep(store);
    SweepShifts(store, kept);
    assert FindPending(kept, guess, 0) == |kept|;
    MissNone(kept, Attempt(guess, input.platformId, now, false));
    SweepTwice(store, kept, code);
  }

  lemma {:induction false} SettledBatch(store: seq<Record>, code: string, ops: seq<Op>, j: nat, after: seq<Record>)
    requires NonePending(store) && OnlyGuesses(ops) && j <= |ops| && after == Batch(store, ops, j)
    ensures Look(after, code) == Look(store, code) && NonePending(after)
    decreases |ops| - j
  {
    if j < |ops| {
      GuessStep(store, ops[j]);
      if GuessOf(ops[j]).Some? {
        SettledGuess(store, code, GuessOf(ops[j]).value, ops[j].input, ops[j].now, Next(store, ops[j]));
      }
      SettledBatch(Next(store, ops[j]), code, ops, j + 1, after);
    }
  }

  // What is seen of a code by its first guess, if any.
  ghost predicate SeenIs(seen: WaitResult, store: seq<Record>, code: string, guess: Option<Op>)
    requires |store| > 0 && IsGuess(guess)
  {
    if guess.None? then seen == Waiting else Answered(seen, store, code, guess.value, GuessOf(guess.value).value)
  }

  // However many operations lie between two looks, the first guess among them decides what is seen.
  lemma {:induction false} BatchExactly(store: seq<Record>, code: string, ops: seq<Op>, j: nat, after: seq<Record>)
    requires OnlyLive(store, code) && OnlyGuesses(ops) && j <= |ops| && after == Batch(store, ops, j)
    ensures SeenIs(Look(after, code), store, code, FirstOf(ops, j))
    ensures if FirstOf(ops, j).None? then after == store else NonePending(after)
    decreases |ops| - j
  {
    LiveIsWaiting(store, code);
    if j < |ops| {
      var next := Next(store, ops[j]);
      GuessStep(store, ops[j]);
      if GuessOf(ops[j]).None? {
        BatchExactly(store, code, ops, j + 1, after);
      } else {
        LiveGuess(store, code, ops[j], GuessOf(ops[j]).value, next);
        SettledBatch(next, code, ops, j + 1, after);
      }
    }
  }

  // What the wait makes of the next look.
  lemma WaitStep(store: seq<Record>, code: string, looks: seq<seq<Op>>, k: nat, next: seq<Record>)
    requires k < |looks| && Look(store, code) == Waiting && next == Batch(store, looks[k], 0)
    ensures Wait(store, code, looks, k) == if Look(next, code) != Waiting then (Look(next, code), next)
            else Wait(next, code, looks, k + 1)
  {
  }

  // The wait is decided by the first message that is a code: the record is consumed by it if it is the
  // code waited for, invalidated otherwise. Messages that are no code change nothing.
  lemma {:induction false} WaitExactly(store: seq<Record>, code: string, looks: seq<seq<Op>>, k: nat, seen: WaitResult,
                                       after: seq<Record>)
    requires OnlyLive(store, code) && OnlyMessages(looks) && k <= |looks|
    requires (seen, after) == Wait(store, code, looks, k)
    ensures SeenIs(seen, store, code, FirstIn(looks, k))
    ensures seen == Burned ==> NonePending(after)
    decreases |looks| - k
  {
    LiveIsWaiting(store, code);
    if k < |looks| {
      var next := Batch(store, looks[k], 0);
      BatchExactly(store, code, looks[k], 0, next);
      WaitStep(store, code, looks, k, next);
      if FirstOf(looks[k], 0).None? {
        WaitExactly(store, code, looks, k + 1, seen, after);
      }
    }
  }

  // ---------------------------------------------------------------- a whole run

  ghost predicate PendingOnlyFor(store: seq<Record>, intent: Intent) {
    forall i :: 0 <= i < |store| && store[i].status == Pending ==> store[i].intent == intent
  }

  lemma SupersededAt(store: seq<Record>, intent: Intent, kept: seq<Record>)
    requires kept == SupersedeAll(Sweep(store), intent)
    ensures forall c :: Unused(store, c) ==> Unused(kept, c)
    ensures PendingOnlyFor(store, intent) ==> NonePending(kept)
  {
    var swept := Sweep(store);
    SweepShifts(store, swept);
    assert forall i :: 0 <= i < |kept| ==> kept[i] == Superseded(swept[i], intent);
  }

  lemma CreateLive(store: seq<Record>, intent: Intent, draws: Draws, now: int)
    requires Unused(store, CodeOf(draws[0])) && PendingOnlyFor(store, intent)
    ensures Create(store, intent, draws, now).0 == Some(Record(CodeOf(draws[0]), intent, now, Pending, None, []))
    ensures OnlyLive(Create(store, intent, draws, now).1, CodeOf(draws[0]))
  {
    var kept := SupersedeAll(Sweep(store), intent);
    SupersededAt(store, intent, kept);
    assert Codes(kept) == {};
  }

  lemma CreateKeepsUnused(store: seq<Record>, intent: Intent, draws: Draws, now: int, code: string)
    requires Unused(store, code)
    requires Create(store, intent, draws, now).0.Some? ==> Create(store, intent, draws, now).0.value.code != code
    ensures Unused(Create(store, intent, draws, now).1, code)
  {
    SupersededAt(store, intent, SupersedeAll(Sweep(store), intent));
  }

  // The first draw for the k-th code.
  function FirstCode(p: Plan, k: nat): string
    requires k <= MAX_REGENERATIONS
  {
    CodeOf(p.draws[k][0])
  }

  function FirstCodes(p: Plan, lo: nat, hi: nat): seq<string>
    requires lo <= hi <= MAX_REGENERATIONS + 1
    decreases hi - lo
  {
    if lo == hi then [] else [FirstCode(p, lo)] + FirstCodes(p, lo + 1, hi)
  }

  // The first code sent in the k-th wait, if any.
  function GuessIn(p: Plan, k: nat): (op: Option<Op>)
    requires k <= MAX_REGENERATIONS
    ensures IsGuess(op)
  {
    FirstIn(p.waits[k], 0)
  }

  predicate WrongIn(p: Plan, k: nat)
    requires k <= MAX_REGENERATIONS
  {
    GuessIn(p, k).Some? && GuessOf(GuessIn(p, k).value) != Some(FirstCode(p, k))
  }

  // The turn on which the run ends: the first whose wait sees no code, or sees the right one, or the sixth.
  function EndTurn(p: Plan, k: nat): (n: nat)
    requires k <= MAX_REGENERATIONS
    ensures k <= n <= MAX_REGENERATIONS
    decreases MAX_REGENERATIONS - k
  {
    if k < MAX_REGENERATIONS && WrongIn(p, k) then EndTurn(p, k + 1) else k
  }

  // The first draws of the later turns are codes of no record, and the waits see only messages.
  ghost predicate Fresh(store: seq<Record>, p: Plan, from: nat) {
    && (forall k :: from <= k <= MAX_REGENERATIONS ==> OnlyMessages(p.waits[k]))
    && (forall k :: from < k <= MAX_REGENERATIONS ==> Unused(store, FirstCode(p, k)))
    && (forall j, k :: from <= j < k <= MAX_REGENERATIONS ==> FirstCode(p, j) != FirstCode(p, k))
  }

  // The verdict that the last wait calls for.
  ghost predicate Fits(verdict: Verdict, code: string, guess: Option<Op>) {
    match guess
    case None => verdict == StillWaiting
    case Some(op) =>
      if GuessOf(op) != Some(code) then verdict == MaxRegenerationsExceeded
      else
        && op.GuessOp? && verdict.Success? && verdict.record.code == code
        && verdict.record.consumed
           == Some(Details(op.input.platformId, op.input.isGroup, op.input.name, op.input.admin, op.now))
  }

  // One turn that waits for a code nobody else has.
  lemma LiveTurn(store: seq<Record>, p: Plan, k: nat, seen: WaitResult, after: seq<Record>)
    requires k <= MAX_REGENERATIONS && OnlyMessages(p.waits[k]) && OnlyLive(store, FirstCode(p, k))
    requires Wait(store, FirstCode(p, k), p.waits[k], 0) == (seen, after)
    ensures SeenIs(seen, store, FirstCode(p, k), GuessIn(p, k))
  {
    WaitExactly(store, FirstCode(p, k), p.waits[k], 0, seen, after);
  }

  lemma BurnedExactlyWhen(store: seq<Record>, p: Plan, k: nat, seen: WaitResult)
    requires k <= MAX_REGENERATIONS && |store| > 0 && SeenIs(seen, store, FirstCode(p, k), GuessIn(p, k))
    ensures seen == Burned <==> WrongIn(p, k)
  {
  }

  lemma SeenFits(store: seq<Record>, code: string, seen: WaitResult, k: nat, guess: Option<Op>)
    requires OnlyLive(store, code) && (seen != Burned || k == MAX_REGENERATIONS)
    requires IsGuess(guess) && SeenIs(seen, store, code, guess)
    ensures Fits(VerdictOf(seen, k), code, guess)
  {
  }

  // The turn after a wrong guess.
  lemma NextTurn(store: seq<Record>, p: Plan, k: nat, after: seq<Record>, r: Option<Record>, created: seq<Record>)
    requires k < MAX_REGENERATIONS && Fresh(store, p, k) && OnlyLive(store, FirstCode(p, k))
    requires Wait(store, FirstCode(p, k), p.waits[k], 0) == (Burned, after)
    requires Create(after, p.intent, p.draws[k + 1], p.now) == (r, created)
    ensures r.Some? && r.value.code == FirstCode(p, k + 1)
    ensures OnlyLive(created, FirstCode(p, k + 1)) && Fresh(created, p, k + 1)
  {
    WaitExactly(store, FirstCode(p, k), p.waits[k], 0, Burned, after);
    WaitKeepsUnused(store, FirstCode(p, k), p.waits[k], 0, FirstCode(p, k + 1));
    CreateLive(after, p.intent, p.draws[k + 1], p.now);
    forall j | k + 1 < j <= MAX_REGENERATIONS
      ensures Unused(created, FirstCode(p, j))
    {
      WaitKeepsUnused(store, FirstCode(p, k), p.waits[k], 0, FirstCode(p, j));
      CreateKeepsUnused(after, p.intent, p.draws[k + 1], p.now, FirstCode(p, j));
    }
  }

  // The codes issued from turn k + 1 on and the verdict, if the run ends on turn n.
  ghost predicate EndsOn(t: Report, p: Plan, k: nat, n: nat)
    requires k <= n <= MAX_REGENERATIONS
  {
    t.issued == FirstCodes(p, k + 1, n + 1) && Fits(t.verdict, FirstCode(p, n), GuessIn(p, n))
  }

  lemma EndsOnEarlier(rest: Report, p: Plan, k: nat, n: nat)
    requires k < n <= MAX_REGENERATIONS && EndsOn(rest, p, k + 1, n)
    ensures EndsOn(Prepend([FirstCode(p, k + 1)], rest), p, k, n)
  {
  }

  lemma TurnEnds(store: seq<Record>, p: Plan, k: nat, seen: WaitResult, after: seq<Record>, t: Report)
    requires k <= MAX_REGENERATIONS && Wait(store, FirstCode(p, k), p.waits[k], 0) == (seen, after)
    requires (seen != Burned || k == MAX_REGENERATIONS) && Fresh(store, p, k) && OnlyLive(store, FirstCode(p, k))
    requires t == Turns(store, FirstCode(p, k), p, k)
    ensures EndsOn(t, p, k, k)
  {
    LiveTurn(store, p, k, seen, after);
    SeenFits(store, FirstCode(p, k), seen, k, GuessIn(p, k));
    LastTurn(store, FirstCode(p, k), p, k, seen, after, t);
  }

  lemma {:induction false} TurnsExactly(store: seq<Record>, p: Plan, k: nat, t: Report)
    requires k <= MAX_REGENERATIONS && Fresh(store, p, k) && OnlyLive(store, FirstCode(p, k))
    requires t == Turns(store, FirstCode(p, k), p, k)
    ensures EndsOn(t, p, k, EndTurn(p, k))
    decreases MAX_REGENERATIONS - k
  {
    var (seen, after) := Wait(store, FirstCode(p, k), p.waits[k], 0);
    LiveTurn(store, p, k, seen, after);
    BurnedExactlyWhen(store, p, k, seen);
    if seen == Burned && k < MAX_REGENERATIONS {
      var (r, created) := Create(after, p.intent, p.draws[k + 1], p.now);
      NextTurn(store, p, k, after, r, created);
      var rest := Turns(created, r.value.code, p, k + 1);
      BurnedTurn(store, FirstCode(p, k), p, k, after, r.value, created, rest);
      TurnsExactly(created, p, k + 1, rest);
      EndsOnEarlier(rest, p, k, EndTurn(p, k + 1));
    } else {
      TurnEnds(store, p, k, seen, after, t);
    }
  }

  lemma StartLive(store: seq<Record>, p: Plan, created: seq<Record>)
    requires Unused(store, FirstCode(p, 0)) && PendingOnlyFor(store, p.intent) && Fresh(store, p, 0)
    requires created == Create(store, p.intent, p.draws[0], p.now).1
    ensures Setup(store, p) == Prepend([FirstCode(p, 0)], Turns(created, FirstCode(p, 0), p, 0))
    ensures OnlyLive(created, FirstCode(p, 0)) && Fresh(created, p, 0)
  {
    CreateLive(store, p.intent, p.draws[0], p.now);
    forall j | 0 < j <= MAX_REGENERATIONS
      ensures Unused(created, FirstCode(p, j))
    {
      CreateKeepsUnused(store, p.intent, p.draws[0], p.now, FirstCode(p, j));
    }
  }

  // With codes that no record in the store has, and no other pairing under way, a run is decided by the
  // first code sent during each wait: codes are issued in turn until a wait in which the code waited for
  // comes first (success, with the chat that sent it) or none comes (still waiting), six at most.
  lemma SetupExactly(store: seq<Record>, p: Plan, n: nat)
    requires Unused(store, FirstCode(p, 0)) && PendingOnlyFor(store, p.intent)
    requires Fresh(store, p, 0) && n == EndTurn(p, 0)
    ensures Setup(store, p).issued == FirstCodes(p, 0, n + 1)
    ensures Fits(Setup(store, p).verdict, FirstCode(p, n), GuessIn(p, n))
  {
    var created := Create(store, p.intent, p.draws[0], p.now).1;
    StartLive(store, p, created);
    TurnsExactly(created, p, 0, Turns(created, FirstCode(p, 0), p, 0));
  }

  // On a store with no record yet, different first draws are all it takes.
  lemma FirstSetupExactly(p: Plan, n: nat)
    requires forall j, k :: 0 <= j < k <= MAX_REGENERATIONS ==> p.draws[j][0] != p.draws[k][0]
    requires forall k :: 0 <= k <= MAX_REGENERATIONS ==> OnlyMessages(p.waits[k])
    requires n == EndTurn(p, 0)
    ensures Setup([], p).issued == FirstCodes(p, 0, n + 1)
    ensures Fits(Setup([], p).verdict, FirstCode(p, n), GuessIn(p, n))
  {
    forall j, k | 0 <= j < k <= MAX_REGENERATIONS
      ensures FirstCode(p, j) != FirstCode(p, k)
    {
      if FirstCode(p, j) == FirstCode(p, k) {
        CodesDiffer(p.draws[j][0], p.draws[k][0], FirstCode(p, j), FirstCode(p, k));
      }
    }
    SetupExactly([], p, n);
  }

  // ---------------------------------------------------------------- the other ends of a run

  lemma {:induction false} FirstFound(store: seq<Record>, code: string, i: nat)
    requires i <= |store| && (forall j :: 0 <= j < i ==> store[j].code != code)
    requires i < |store| ==> store[i].code == code
    ensures FindCode(store, code) == if i < |store| then Some(store[i]) else None
    decreases |store|
  {
    if i > 0 { FirstFound(store[1..], code, i - 1); }
  }

  // A look finds the first of the last fifty records that has the code: paired if it is consumed, burned if
  // it is invalidated, lost if there is none.
  lemma LookExactly(store: seq<Record>, code: string, kept: seq<Record>, i: nat)
    requires kept == Sweep(store) && i <= |kept| && (forall j :: 0 <= j < i ==> kept[j].code != code)
    requires i < |kept| ==> kept[i].code == code
    ensures Look(store, code) == Lost <==> i == |kept|
    ensures Look(store, code).Paired? <==> i < |kept| && kept[i].status == Consumed
    ensures Look(store, code).Paired? ==> Look(store, code).record == kept[i]
    ensures Look(store, code) == Burned <==> i < |kept| && kept[i].status == Invalidated
    ensures Look(store, code) == Waiting <==> i < |kept| && kept[i].status == Pending
  {
    FirstFound(kept, code, i);
  }

  // A run ends without a pairing if the record of its code is gone, or if it is still pending when the looks
  // run out; neither issues another code.
  lemma EndsWithoutPairing(store: seq<Record>, code: string, p: Plan, regen: nat)
    requires regen <= MAX_REGENERATIONS
    ensures Look(store, code) == Lost ==> Turns(store, code, p, regen) == Report([], OtherError, store)
    ensures Look(store, code) == Waiting && p.waits[regen] == []
            ==> Turns(store, code, p, regen) == Report([], StillWaiting, store)
  {
  }

  // A run that finds no free code at its start issues none and writes nothing.
  lemma NoCodeIsIssuedExactlyWhen(store: seq<Record>, p: Plan, s: Report)
    requires s == Setup(store, p)
    ensures s.issued == [] <==> Create(store, p.intent, p.draws[0], p.now).0.None?
    ensures s.issued == [] ==> s.verdict == NoFreeCode && s.store == store
  {
  }

  // ---------------------------------------------------------------- a code drawn again

  lemma CodesAreDigits(n: Draw)
    ensures IsCode(CodeOf(n))
  {
  }

  lemma CodeIsExtracted(code: string, bot: string)
    requires IsCode(code)
    ensures ExtractCode(code, bot) == Some(code)
  {
    TrimKeeps(code);
    PlainCodeExactlyWhen(code, bot);
  }

  lemma FirstCreated(intent: Intent, draws: Draws, now: int)
    ensures Next([], CreateOp(intent, draws, now)) == [Record(CodeOf(draws[0]), intent, now, Pending, None, [])]
  {
    assert SupersedeAll([], intent) == [];
    assert Codes([]) == {};
  }

  lemma ConsumedAlone(r: Record, input: Input, now: int)
    requires IsCode(r.code) && r.status == Pending && input.text == r.code
    ensures Next([r], GuessOp(input, now)) == [Consume(r, r.code, input, now)]
  {
    CodeIsExtracted(r.code, input.bot);
    assert FindPending([r], r.code, 0) == 0;
  }

  lemma CreatedBeside(old0: Record, intent: Intent, draws: Draws, now: int)
    requires old0.status == Consumed
    ensures Next([old0], CreateOp(intent, draws, now))
            == [old0, Record(CodeOf(draws[0]), intent, now, Pending, None, [])]
  {
    assert SupersedeAll([old0], intent) == [old0];
    assert Codes([old0]) == {};
  }

  // A run in which a pairing is created, consumed, and created again with the code drawn before: looking
  // the new code up gives the old record, so a wait for it ends at once with the old chat.
  lemma LookupFindsConsumedRecord(create: Op, guess: Op, again: Op, store: seq<Record>)
    requires create.CreateOp? && guess.GuessOp? && again.CreateOp?
    requires create.draws[0] == again.draws[0] && guess.input.text == CodeOf(create.draws[0])
    requires store == Run([], [create, guess, again])
    ensures |store| == 2 && store[0].code == store[1].code == guess.input.text && store[1].status == Pending
    ensures store[0].consumed.Some? && store[0].consumed.value.platformId == guess.input.platformId
    ensures Look(store, store[1].code) == Paired(store[0])
  {
    var first := Record(CodeOf(create.draws[0]), create.intent, create.now, Pending, None, []);
    var consumed := Consume(first, first.code, guess.input, guess.now);
    CodesAreDigits(create.draws[0]);
    FirstCreated(create.intent, create.draws, create.now);
    ConsumedAlone(first, guess.input, guess.now);
    CreatedBeside(consumed, again.intent, again.draws, again.now);
    RunOne([], create, [guess, again], [create, guess, again]);
    RunOne([first], guess, [again], [guess, again]);
    RunOne([consumed], again, [], [again]);
    RunNone(Next([consumed], again));
  }

  lemma RunOne(store: seq<Record>, op: Op, rest: seq<Op>, ops: seq<Op>)
    requires ops == [op] + rest
    ensures Run(store, ops) == Run(Next(store, op), rest)
  {
    assert ops[1..] == rest;
  }

  lemma RunNone(store: seq<Record>)
    ensures Run(store, []) == store
  {
  }
}
