// src/channels/telegram-pairing.ts: the store of one-time pairing codes.
//
// Each operation reads and writes the whole store under the mutex, so it is one step. Random draws
// and times are parameters.
module TelegramPairing {
  import opened Wrappers
  import opened JsText

  datatype Intent = Main | WireTo(folder: string) | NewAgent(folder: string)
  datatype Status = Pending | Consumed | Invalidated
  datatype Attempt = Attempt(candidate: string, platformId: string, at: int, matched: bool)
  datatype Details = Details(platformId: string, isGroup: bool, name: Option<string>, admin: Option<string>, at: int)
  datatype Record = Record(code: string, intent: Intent, createdAt: int, status: Status,
                           consumed: Option<Details>, attempts: seq<Attempt>)

  datatype Input = Input(text: string, bot: string, platformId: string, isGroup: bool, name: Option<string>,
                         admin: Option<string>)

  const MAX_ATTEMPTS_PER_RECORD := 10
  const KEPT := 50
  const DRAWS := 50

  // ---------------------------------------------------------------- codes

  type Draw = n: nat | n < 10000

  // The random draws of one generateCode call.
  type Draws = d: seq<Draw> | |d| == DRAWS witness seq(DRAWS, _ => 0)

  function Digit(n: nat): char
    requires n < 10
  {
    ['0', '1', '2', '3', '4', '5', '6', '7', '8', '9'][n]
  }

  // toString().padStart(4, '0')
  function CodeOf(n: Draw): string {
    [Digit(n / 1000), Digit(n / 100 % 10), Digit(n / 10 % 10), Digit(n % 10)]
  }

  lemma DigitsDiffer(m: nat, n: nat)
    requires m < 10 && n < 10 && Digit(m) == Digit(n)
    ensures m == n
  {
  }

  lemma FourDigits(n: nat)
    requires n < 10000
    ensures n == 10 * (n / 10) + n % 10 && n / 10 == 10 * (n / 100) + n / 10 % 10
    ensures n / 100 == 10 * (n / 1000) + n / 100 % 10
  {
  }

  // Zero padding keeps codes apart: different draws give different codes.
  lemma CodesDiffer(m: Draw, n: Draw, a: string, b: string)
    requires a == CodeOf(m) && b == CodeOf(n) && a[0] == b[0] && a[1] == b[1] && a[2] == b[2] && a[3] == b[3]
    ensures m == n
  {
    FourDigits(m);
    FourDigits(n);
    DigitsDiffer(m / 1000, n / 1000);
    DigitsDiffer(m / 100 % 10, n / 100 % 10);
    DigitsDiffer(m / 10 % 10, n / 10 % 10);
    DigitsDiffer(m % 10, n % 10);
  }

  predicate IsDigit(c: char) { '0' <= c <= '9' }

  predicate IsCode(s: string) { |s| == 4 && IsDigit(s[0]) && IsDigit(s[1]) && IsDigit(s[2]) && IsDigit(s[3]) }

  function Codes(store: seq<Record>): set<string> { set r | r in store && r.status == Pending :: r.code }

  // The first of at most 50 draws that is not an active code.
  function GenerateCode(active: set<string>, draws: seq<Draw>, k: nat): Option<string>
    requires k <= |draws|
    decreases |draws| - k
  {
    if k == |draws| then None
    else if CodeOf(draws[k]) !in active then Some(CodeOf(draws[k]))
    else GenerateCode(active, draws, k + 1)
  }

  lemma {:induction false} GeneratedIsFree(active: set<string>, draws: seq<Draw>, k: nat)
    requires k <= |draws|
    ensures var c := GenerateCode(active, draws, k);
            && (c.Some? ==> IsCode(c.value) && c.value !in active)
            && (c.None? <==> forall i :: k <= i < |draws| ==> CodeOf(draws[i]) in active)
    decreases |draws| - k
  {
    if k < |draws| { GeneratedIsFree(active, draws, k + 1); }
  }

  // ---------------------------------------------------------------- reading a message

  predicate IsWord(c: char) { 'a' <= c <= 'z' || 'A' <= c <= 'Z' || IsDigit(c) || c == '_' }

  function Fold(c: char): char { if 'A' <= c <= 'Z' then c - 'A' + 'a' else c }

  predicate SameFolded(a: string, b: string) { |a| == |b| && forall i :: 0 <= i < |a| ==> Fold(a[i]) == Fold(b[i]) }

  // \b between position n - 1 and n.
  predicate Boundary(s: string, n: nat)
    requires n <= |s|
  {
    (n > 0 && IsWord(s[n - 1])) != (n < |s| && IsWord(s[n]))
  }

  // The bot's username is taken literally.
  predicate Addresses(t: string, bot: string) {
    1 + |bot| <= |t| && SameFolded(t[..1 + |bot|], "@" + bot) && Boundary(t, 1 + |bot|)
  }

  function ExtractAddressedText(text: string, bot: string): Option<string> {
    var t := Trim(text);
    if Addresses(t, bot) then Some(Trim(t[1 + |bot|..])) else None
  }

  function ExtractCode(text: string, bot: string): Option<string> {
    var addressed := ExtractAddressedText(text, bot);
    var candidate := Trim(if addressed.Some? then addressed.value else text);
    if IsCode(candidate) then Some(candidate) else None
  }

  lemma NotAddressed(t: string, bot: string)
    requires t == "" || t[0] != '@'
    ensures !Addresses(t, bot)
  {
    if 1 + |bot| <= |t| {
      assert t[..1 + |bot|][0] == t[0] && ("@" + bot)[0] == '@';
    }
  }

  // A message that does not start with '@' is a code only if it is exactly four digits.
  lemma PlainCodeExactlyWhen(text: string, bot: string)
    requires Trim(text) == "" || Trim(text)[0] != '@'
    ensures ExtractCode(text, bot) == if IsCode(Trim(text)) then Some(Trim(text)) else None
  {
    NotAddressed(Trim(text), bot);
  }

  // Letters, digits and the underscore by their codes, and the same letter in either case.
  predicate WordCode(n: int) { 97 <= n <= 122 || 65 <= n <= 90 || 48 <= n <= 57 || n == 95 }

  predicate SameLetter(m: int, n: int) { m == n || (97 <= m <= 122 && n == m - 32) || (65 <= m <= 90 && n == m + 32) }

  lemma CodeIsFourDigits(t: string)
    ensures IsCode(t) <==> |t| == 4 && forall i :: 0 <= i < 4 ==> 48 <= t[i] as int <= 57
  {
  }

  lemma SameFoldedMeans(t: string, bot: string)
    requires |t| > |bot|
    ensures SameFolded(t[..1 + |bot|], "@" + bot)
            <==> t[0] == '@' && forall i :: 0 <= i < |bot| ==> Fold(t[i + 1]) == Fold(bot[i])
  {
    var head, at := t[..1 + |bot|], "@" + bot;
    assert head[0] == t[0] && at[0] == '@';
    assert forall i :: 0 <= i < |bot| ==> at[i + 1] == bot[i] && head[i + 1] == t[i + 1];
    if t[0] == '@' && forall i :: 0 <= i < |bot| ==> Fold(t[i + 1]) == Fold(bot[i]) {
      forall i | 0 <= i < |head|
        ensures Fold(head[i]) == Fold(at[i])
      {
        if i > 0 { assert Fold(t[i - 1 + 1]) == Fold(bot[i - 1]); }
      }
    }
  }

  // A text addresses the bot if and only if it is an at sign, the bot's name in any case, and then nothing or
  // something that is not part of a name.
  lemma AddressesExactlyWhen(t: string, bot: string)
    requires bot != "" && WordCode(bot[|bot| - 1] as int)
    ensures Addresses(t, bot)
            <==> |t| > |bot| && t[0] == '@'
                 && (forall i :: 0 <= i < |bot| ==> SameLetter(t[i + 1] as int, bot[i] as int))
                 && (|t| == |bot| + 1 || !WordCode(t[|bot| + 1] as int))
  {
    if |t| > |bot| {
      SameFoldedMeans(t, bot);
      forall i | 0 <= i < |bot|
        ensures SameLetter(t[i + 1] as int, bot[i] as int) <==> Fold(t[i + 1]) == Fold(bot[i])
      {
        FoldIsSameLetter(t[i + 1], bot[i]);
      }
      if Fold(t[|bot| - 1 + 1]) == Fold(bot[|bot| - 1]) { SameLast(t, bot); }
    }
  }

  lemma FoldIsSameLetter(c: char, d: char)
    ensures SameLetter(c as int, d as int) <==> Fold(c) == Fold(d)
  {
  }

  // The last letter of the name is a word character in the text too.
  lemma SameLast(t: string, bot: string)
    requires bot != "" && WordCode(bot[|bot| - 1] as int) && |t| > |bot|
    requires Fold(t[|bot|]) == Fold(bot[|bot| - 1])
    ensures IsWord(t[|bot|])
  {
  }

  lemma {:induction false} TrimStartSpaces(ws: string, s: string)
    requires AllSpace(ws) && s != "" && !IsSpace(s[0])
    ensures TrimStart(ws + s) == s
    decreases |ws|
  {
    if ws == "" {
      assert ws + s == s;
    } else {
      assert (ws + s)[1..] == ws[1..] + s;
      TrimStartSpaces(ws[1..], s);
    }
  }

  lemma TrimEndKeeps(s: string)
    requires s != "" && !IsSpace(s[|s| - 1])
    ensures TrimEnd(s) == s
  {
  }

  lemma CodeIsTrimmed(ws: string, code: string)
    requires AllSpace(ws) && code != "" && !IsSpace(code[0]) && !IsSpace(code[|code| - 1])
    ensures Trim(ws + code) == code
  {
    TrimStartSpaces(ws, code);
    TrimEndKeeps(code);
  }

  lemma TrimKeeps(text: string)
    requires text != "" && !IsSpace(text[0]) && !IsSpace(text[|text| - 1])
    ensures Trim(text) == text
  {
    CodeIsTrimmed("", text);
    assert "" + text == text;
  }

  lemma BotIsAddressed(bot: string, rest: string)
    requires bot != "" && IsWord(bot[|bot| - 1]) && (rest == "" || !IsWord(rest[0]))
    ensures Addresses("@" + bot + rest, bot)
  {
    assert ("@" + bot + rest)[..1 + |bot|] == "@" + bot;
  }

  lemma AddressedRest(text: string, bot: string, ws: string, code: string)
    requires Trim(text) == text && Addresses(text, bot) && text[1 + |bot|..] == ws + code
    requires Trim(ws + code) == code && Trim(code) == code && IsCode(code)
    ensures ExtractCode(text, bot) == Some(code)
  {
  }

  // "@bot 1234" carries the code 1234, whatever white space separates the two.
  lemma AddressedCode(bot: string, ws: string, code: string)
    requires bot != "" && IsWord(bot[|bot| - 1]) && ws != "" && AllSpace(ws) && IsCode(code)
    ensures ExtractCode("@" + bot + (ws + code), bot) == Some(code)
  {
    var text := "@" + bot + (ws + code);
    TrimKeeps(text);
    BotIsAddressed(bot, ws + code);
    CodeIsTrimmed(ws, code);
    TrimKeeps(code);
    AddressedRest(text, bot, ws, code);
  }

  // ---------------------------------------------------------------- the store operations

  function Sweep(store: seq<Record>): (s: seq<Record>)
    ensures |s| <= KEPT
  {
    if |store| <= KEPT then store else store[|store| - KEPT..]
  }

  function LastAttempts(a: seq<Attempt>): seq<Attempt> {
    if |a| <= MAX_ATTEMPTS_PER_RECORD then a else a[|a| - MAX_ATTEMPTS_PER_RECORD..]
  }

  function Superseded(r: Record, intent: Intent): Record {
    if r.status == Pending && r.intent == intent then r.(status := Invalidated) else r
  }

  function Missed(r: Record, attempt: Attempt): Record {
    if r.status == Pending then r.(attempts := LastAttempts(r.attempts + [attempt]), status := Invalidated) else r
  }

  function SupersedeAll(store: seq<Record>, intent: Intent): seq<Record> {
    seq(|store|, i requires 0 <= i < |store| => Superseded(store[i], intent))
  }

  function MissAll(store: seq<Record>, attempt: Attempt): seq<Record> {
    seq(|store|, i requires 0 <= i < |store| => Missed(store[i], attempt))
  }

  // None stands for the exception of generateCode; nothing is written then.
  function Create(store: seq<Record>, intent: Intent, draws: Draws, now: int): (Option<Record>, seq<Record>) {
    var kept := SupersedeAll(Sweep(store), intent);
    var code := GenerateCode(Codes(kept), draws, 0);
    if code.None? then (None, store)
    else
      var r := Record(code.value, intent, now, Pending, None, []);
      (Some(r), kept + [r])
  }

  function FindPending(store: seq<Record>, code: string, k: nat): (i: nat)
    requires k <= |store|
    ensures k <= i <= |store|
    ensures i < |store| ==> store[i].code == code && store[i].status == Pending
    ensures forall j :: k <= j < i ==> !(store[j].code == code && store[j].status == Pending)
    decreases |store| - k
  {
    if k == |store| || (store[k].code == code && store[k].status == Pending) then k else FindPending(store, code, k + 1)
  }

  function Consume(r: Record, code: string, input: Input, now: int): Record {
    r.(status := Consumed,
       consumed := Some(Details(input.platformId, input.isGroup, input.name, input.admin, now)),
       attempts := LastAttempts(r.attempts + [Attempt(code, input.platformId, now, true)]))
  }

  // A four-digit guess, once extracted.
  function Guess(store: seq<Record>, code: string, input: Input, now: int): (Option<Record>, seq<Record>) {
    var kept := Sweep(store);
    var i := FindPending(kept, code, 0);
    if i == |kept| then (None, MissAll(kept, Attempt(code, input.platformId, now, false)))
    else
      var r := Consume(kept[i], code, input, now);
      (Some(r), kept[i := r])
  }

  function TryConsume(store: seq<Record>, input: Input, now: int): (Option<Record>, seq<Record>) {
    match ExtractCode(input.text, input.bot)
    case None => (None, store)
    case Some(code) => Guess(store, code, input, now)
  }

  function FindCode(store: seq<Record>, code: string): Option<Record> {
    if store == [] then None else if store[0].code == code then Some(store[0]) else FindCode(store[1..], code)
  }

  // getPairing: the sweep is on the copy just read.
  function GetPairing(store: seq<Record>, code: string): Option<Record> { FindCode(Sweep(store), code) }

  class PairingStore {
    var pairings: seq<Record>

    constructor ()
      ensures pairings == []
    {
      pairings := [];
    }

    method CreatePairing(intent: Intent, draws: Draws, now: int) returns (r: Option<Record>)
      modifies this
      ensures (r, pairings) == Create(old(pairings), intent, draws, now)
    {
      var store := Sweep(pairings);
      ghost var swept := store;
      for i := 0 to |store|
        invariant |store| == |swept|
        invariant forall j :: 0 <= j < |store| ==> store[j] == if j < i then Superseded(swept[j], intent) else swept[j]
      {
        if store[i].status == Pending && store[i].intent == intent {
          store := store[i := store[i].(status := Invalidated)];
        }
      }
      assert store == SupersedeAll(swept, intent);
      var active := Codes(store);
      var code: Option<string> := None;
      for k := 0 to DRAWS
        invariant code == None && GenerateCode(active, draws, 0) == GenerateCode(active, draws, k)
      {
        if CodeOf(draws[k]) !in active {
          code := Some(CodeOf(draws[k]));
          break;
        }
      }
      if code.None? { return None; }
      var record := Record(code.value, intent, now, Pending, None, []);
      pairings := store + [record];
      r := Some(record);
    }

    method InvalidatePending(store: seq<Record>, attempt: Attempt) returns (after: seq<Record>)
      ensures after == MissAll(store, attempt)
    {
      after := store;
      for i := 0 to |store|
        invariant |after| == |store|
        invariant forall j :: 0 <= j < |store| ==> after[j] == if j < i then Missed(store[j], attempt) else store[j]
      {
        if after[i].status != Pending { continue; }
        after := after[i := after[i].(attempts := LastAttempts(after[i].attempts + [attempt]), status := Invalidated)];
      }
    }

    method TryConsumeCode(input: Input, now: int) returns (r: Option<Record>)
      modifies this
      ensures (r, pairings) == TryConsume(old(pairings), input, now)
    {
      var code := ExtractCode(input.text, input.bot);
      if code.None? { return None; }
      var store := Sweep(pairings);
      var found := FindPending(store, code.value, 0);
      if found == |store| {
        pairings := InvalidatePending(store, Attempt(code.value, input.platformId, now, false));
        return None;
      }
      var record := Consume(store[found], code.value, input, now);
      pairings := store[found := record];
      r := Some(record);
    }
  }

  // ---------------------------------------------------------------- the store's invariant

  // A record sees at most one guess, the one that settles it.
  ghost predicate RecordOk(r: Record) {
    && IsCode(r.code) && |r.attempts| <= 1
    && (r.status == Pending ==> r.attempts == [] && r.consumed == None)
    && (r.status == Consumed ==>
        r.consumed.Some? && |r.attempts| == 1 && r.attempts[0].matched && r.attempts[0].candidate == r.code)
    && (r.status == Invalidated ==>
        r.consumed == None && (r.attempts != [] ==> !r.attempts[0].matched && r.attempts[0].candidate != r.code))
  }

  ghost predicate PendingApart(store: seq<Record>) {
    forall i, j :: 0 <= i < j < |store| && store[i].status == Pending && store[j].status == Pending ==>
      store[i].code != store[j].code && store[i].intent != store[j].intent
  }

  ghost predicate Inv(store: seq<Record>) {
    && |store| <= KEPT + 1
    && PendingApart(store)
    && forall i :: 0 <= i < |store| ==> RecordOk(store[i])
  }

  datatype Op = CreateOp(intent: Intent, draws: Draws, now: int) | GuessOp(input: Input, now: int)

  function Next(store: seq<Record>, op: Op): seq<Record> {
    match op
    case CreateOp(intent, draws, now) => Create(store, intent, draws, now).1
    case GuessOp(input, now) => TryConsume(store, input, now).1
  }

  function Run(store: seq<Record>, ops: seq<Op>): seq<Record>
    decreases |ops|
  {
    if ops == [] then store else Run(Next(store, ops[0]), ops[1..])
  }

  lemma SuffixKeepsInv(store: seq<Record>, d: nat, s: seq<Record>)
    requires Inv(store) && d <= |store| && s == store[d..]
    ensures Inv(s)
  {
    forall i, j | 0 <= i < j < |s| && s[i].status == Pending && s[j].status == Pending
      ensures s[i].code != s[j].code && s[i].intent != s[j].intent
    {
      assert s[i] == store[d + i] && s[j] == store[d + j];
    }
    assert forall i :: 0 <= i < |s| ==> s[i] == store[d + i];
  }

  lemma SweepKeepsInv(store: seq<Record>)
    requires Inv(store)
    ensures Inv(Sweep(store))
  {
    SuffixKeepsInv(store, if |store| <= KEPT then 0 else |store| - KEPT, Sweep(store));
  }

  lemma SupersedeKeepsInv(store: seq<Record>, intent: Intent, kept: seq<Record>)
    requires Inv(store) && kept == SupersedeAll(store, intent)
    ensures Inv(kept)
    ensures forall i :: 0 <= i < |kept| && kept[i].status == Pending ==> kept[i].intent != intent
  {
    forall i | 0 <= i < |kept|
      ensures RecordOk(kept[i]) && (kept[i].status == Pending ==> kept[i] == store[i] && kept[i].intent != intent)
    {
      assert kept[i] == Superseded(store[i], intent) && RecordOk(store[i]);
    }
  }

  lemma AppendKeepsInv(kept: seq<Record>, r: Record)
    requires Inv(kept) && |kept| <= KEPT && RecordOk(r)
    requires forall i :: 0 <= i < |kept| && kept[i].status == Pending ==>
             kept[i].intent != r.intent && kept[i].code != r.code
    ensures Inv(kept + [r])
  {
  }

  lemma CreateKeepsInv(store: seq<Record>, intent: Intent, draws: Draws, now: int)
    requires Inv(store)
    ensures Inv(Create(store, intent, draws, now).1)
  {
    SweepKeepsInv(store);
    var kept := SupersedeAll(Sweep(store), intent);
    SupersedeKeepsInv(Sweep(store), intent, kept);
    var code := GenerateCode(Codes(kept), draws, 0);
    GeneratedIsFree(Codes(kept), draws, 0);
    if code.Some? {
      forall i | 0 <= i < |kept| && kept[i].status == Pending
        ensures kept[i].code != code.value
      {
        assert kept[i] in kept && kept[i].code in Codes(kept);
      }
      AppendKeepsInv(kept, Record(code.value, intent, now, Pending, None, []));
    }
  }

  lemma MissKeepsInv(store: seq<Record>, attempt: Attempt, after: seq<Record>)
    requires Inv(store) && after == MissAll(store, attempt) && !attempt.matched
    requires forall i :: 0 <= i < |store| && store[i].status == Pending ==> store[i].code != attempt.candidate
    ensures Inv(after)
    ensures forall i :: 0 <= i < |after| ==> after[i].status != Pending
  {
    forall i | 0 <= i < |after|
      ensures RecordOk(after[i]) && after[i].status != Pending
    {
      assert after[i] == Missed(store[i], attempt) && RecordOk(store[i]);
    }
  }

  lemma ConsumeKeepsInv(store: seq<Record>, i: nat, input: Input, now: int, after: seq<Record>)
    requires Inv(store) && i < |store| && store[i].status == Pending
    requires after == store[i := Consume(store[i], store[i].code, input, now)]
    ensures Inv(after)
  {
    assert RecordOk(store[i]) && RecordOk(after[i]);
    assert forall j :: 0 <= j < |after| && after[j].status == Pending ==> after[j] == store[j];
  }

  lemma GuessKeepsInv(store: seq<Record>, code: string, input: Input, now: int)
    requires Inv(store)
    ensures Inv(Guess(store, code, input, now).1)
  {
    SweepKeepsInv(store);
    var kept := Sweep(store);
    var store' := Guess(store, code, input, now).1;
    var i := FindPending(kept, code, 0);
    if i == |kept| {
      MissKeepsInv(kept, Attempt(code, input.platformId, now, false), store');
    } else {
      ConsumeKeepsInv(kept, i, input, now, store');
    }
  }

  lemma NextKeepsInv(store: seq<Record>, op: Op)
    requires Inv(store)
    ensures Inv(Next(store, op))
  {
    match op
    case CreateOp(intent, draws, now) => CreateKeepsInv(store, intent, draws, now);
    case GuessOp(input, now) =>
      match ExtractCode(input.text, input.bot)
      case None =>
      case Some(code) => GuessKeepsInv(store, code, input, now);
  }

  lemma {:induction false} RunKeepsInv(store: seq<Record>, ops: seq<Op>)
    requires Inv(store)
    ensures Inv(Run(store, ops))
    decreases |ops|
  {
    if ops != [] {
      NextKeepsInv(store, ops[0]);
      RunKeepsInv(Next(store, ops[0]), ops[1..]);
    }
  }

  // In every reachable store: at most 51 records, pending records differ in code and in intent, and
  // each record has seen at most one guess: its own code if consumed, another code if invalidated by it.
  lemma ReachableStores(ops: seq<Op>)
    ensures Inv(Run([], ops))
  {
    RunKeepsInv([], ops);
  }

  // ---------------------------------------------------------------- settling

  // A record stays as it is, or leaves the pending state once; a settled record never changes.
  ghost predicate Evolves(r: Record, r': Record) {
    r' == r || (r.status == Pending && r'.status != Pending && r'.code == r.code && r'.intent == r.intent
                && r'.createdAt == r.createdAt)
  }

  // How many records an operation appends: one if it is a creation that finds a free code.
  function Appends(store: seq<Record>, op: Op): nat {
    if op.CreateOp? && Create(store, op.intent, op.draws, op.now).0.Some? then 1 else 0
  }

  // How many pairings a run creates.
  function Created(store: seq<Record>, ops: seq<Op>): nat
    decreases |ops|
  {
    if ops == [] then 0 else Appends(store, ops[0]) + Created(Next(store, ops[0]), ops[1..])
  }

  // `created` records were appended; if that makes the store longer than it is, the oldest fell out of the
  // last 50.
  ghost predicate Shifted(store: seq<Record>, store': seq<Record>, created: nat) {
    |store'| <= |store| + created && (|store'| < |store| + created ==> |store'| >= KEPT)
  }

  ghost function Dropped(store: seq<Record>, store': seq<Record>, created: nat): nat
    requires Shifted(store, store', created)
  {
    |store| + created - |store'|
  }

  // Record i, unless it was dropped, is where the shift moved it, evolved.
  ghost predicate EvolvesAt(store: seq<Record>, store': seq<Record>, created: nat, i: int)
    requires Shifted(store, store', created)
  {
    var d := Dropped(store, store', created);
    0 <= i < |store| && d <= i ==> Evolves(store[i], store'[i - d])
  }

  lemma CreateEvolves(store: seq<Record>, intent: Intent, draws: Draws, now: int, r: Option<Record>,
                      store': seq<Record>, i: int)
    requires (r, store') == Create(store, intent, draws, now) && r.Some?
    ensures Shifted(store, store', 1) && EvolvesAt(store, store', 1, i)
  {
    var swept := Sweep(store);
    var d := |store| - |swept|;
    if 0 <= d <= i < |store| {
      assert store'[i - d] == Superseded(swept[i - d], intent) && swept[i - d] == store[i];
    }
  }

  lemma GuessEvolves(store: seq<Record>, code: string, input: Input, now: int, store': seq<Record>, i: int)
    requires store' == Guess(store, code, input, now).1
    ensures Shifted(store, store', 0) && EvolvesAt(store, store', 0, i)
  {
    var swept := Sweep(store);
    var d := |store| - |swept|;
    if 0 <= d <= i < |store| {
      assert swept[i - d] == store[i];
      if FindPending(swept, code, 0) == |swept| {
        assert store'[i - d] == Missed(store[i], Attempt(code, input.platformId, now, false));
      }
    }
  }

  lemma StepEvolves(store: seq<Record>, op: Op, next: seq<Record>, i: int)
    requires next == Next(store, op)
    ensures Shifted(store, next, Appends(store, op)) && EvolvesAt(store, next, Appends(store, op), i)
  {
    match op
    case CreateOp(intent, draws, now) =>
      var (r, _) := Create(store, intent, draws, now);
      if r.Some? { CreateEvolves(store, intent, draws, now, r, next, i); }
    case GuessOp(input, now) =>
      match ExtractCode(input.text, input.bot)
      case None =>
      case Some(code) => GuessEvolves(store, code, input, now, next, i);
  }

  lemma EvolvesTwice(a: seq<Record>, b: seq<Record>, c: seq<Record>, n1: nat, n2: nat, i: int)
    requires Shifted(a, b, n1) && Shifted(b, c, n2)
    requires EvolvesAt(a, b, n1, i) && EvolvesAt(b, c, n2, i - Dropped(a, b, n1))
    ensures Shifted(a, c, n1 + n2) && EvolvesAt(a, c, n1 + n2, i)
  {
  }

  ghost predicate Linked(store: seq<Record>, store': seq<Record>, created: nat) {
    Shifted(store, store', created) && forall i: int :: EvolvesAt(store, store', created, i)
  }

  // The stores a run goes through, and what each step appends.
  ghost predicate Chain(stores: seq<seq<Record>>, appended: seq<nat>)
    decreases |appended|
  {
    && |stores| == |appended| + 1
    && (appended != [] ==> Linked(stores[0], stores[1], appended[0]) && Chain(stores[1..], appended[1..]))
  }

  function Sum(ns: seq<nat>): nat { if ns == [] then 0 else ns[0] + Sum(ns[1..]) }

  lemma LinkedTwice(a: seq<Record>, b: seq<Record>, c: seq<Record>, n1: nat, n2: nat)
    requires Linked(a, b, n1) && Linked(b, c, n2)
    ensures Linked(a, c, n1 + n2)
  {
    var n := n1 + n2;
    EvolvesTwice(a, b, c, n1, n2, 0);
    forall i: int
      ensures EvolvesAt(a, c, n, i)
    {
      assert EvolvesAt(a, b, n1, i) && EvolvesAt(b, c, n2, i - Dropped(a, b, n1));
      EvolvesTwice(a, b, c, n1, n2, i);
    }
  }

  lemma {:induction false} ChainLinks(stores: seq<seq<Record>>, appended: seq<nat>)
    requires Chain(stores, appended)
    ensures Linked(stores[0], stores[|appended|], Sum(appended))
    decreases |appended|
  {
    if appended != [] {
      ChainLinks(stores[1..], appended[1..]);
      LinkedTwice(stores[0], stores[1], stores[|appended|], appended[0], Sum(appended[1..]));
    }
  }

  lemma StepLinks(store: seq<Record>, op: Op, next: seq<Record>)
    requires next == Next(store, op)
    ensures Linked(store, next, Appends(store, op))
  {
    StepEvolves(store, op, next, 0);
    forall i: int
      ensures EvolvesAt(store, next, Appends(store, op), i)
    {
      StepEvolves(store, op, next, i);
    }
  }

  lemma ChainCons(store: seq<Record>, first: nat, stores: seq<seq<Record>>, appended: seq<nat>)
    requires Chain(stores, appended) && Linked(store, stores[0], first)
    ensures Chain([store] + stores, [first] + appended)
    ensures ([store] + stores)[|appended| + 1] == stores[|appended|] && Sum([first] + appended) == first + Sum(appended)
  {
    assert ([store] + stores)[1..] == stores && ([first] + appended)[1..] == appended;
  }

  lemma {:induction false} RunIsChain(store: seq<Record>, ops: seq<Op>, end: seq<Record>, created: nat)
    returns (stores: seq<seq<Record>>, appended: seq<nat>)
    requires end == Run(store, ops) && created == Created(store, ops)
    ensures Chain(stores, appended) && stores[0] == store && stores[|appended|] == end && Sum(appended) == created
    decreases |ops|
  {
    if ops == [] {
      return [store], [];
    }
    var next, first := Next(store, ops[0]), Appends(store, ops[0]);
    var rest, more := RunIsChain(next, ops[1..], end, Created(next, ops[1..]));
    StepLinks(store, ops[0], next);
    ChainCons(store, first, rest, more);
    stores, appended := [store] + rest, [first] + more;
  }

  lemma LinkedMeans(store: seq<Record>, end: seq<Record>, created: nat) returns (dropped: nat)
    requires Linked(store, end, created)
    ensures |end| + dropped == |store| + created && (dropped > 0 ==> |end| >= KEPT)
    ensures forall i :: dropped <= i < |store| ==> Evolves(store[i], end[i - dropped])
  {
    dropped := Dropped(store, end, created);
    forall i | dropped <= i < |store|
      ensures Evolves(store[i], end[i - dropped])
    {
      assert EvolvesAt(store, end, created, i);
    }
  }

  // Over every run a record leaves the pending state at most once and never changes once it is settled.
  // Its place in the store tells which one it is: the run's creations are appended, and as many records
  // as the final length is short of fell out in front, none while there are fewer than 50.
  lemma EachRecordSettlesOnce(store: seq<Record>, ops: seq<Op>, end: seq<Record>) returns (dropped: nat)
    requires end == Run(store, ops)
    ensures |end| + dropped == |store| + Created(store, ops)
    ensures dropped > 0 ==> |end| >= KEPT
    ensures forall i :: dropped <= i < |store| ==> Evolves(store[i], end[i - dropped])
  {
    var stores, appended := RunIsChain(store, ops, end, Created(store, ops));
    ChainLinks(stores, appended);
    dropped := LinkedMeans(store, end, Created(store, ops));
  }

  // A guess settles: with the code of a pending record it consumes exactly that record and no other
  // changes; with any other four digits nothing stays pending.
  lemma GuessSettles(store: seq<Record>, code: string, input: Input, now: int, kept: seq<Record>, r: Option<Record>,
                     store': seq<Record>)
    requires Inv(store)
    requires kept == Sweep(store) && (r, store') == Guess(store, code, input, now)
    ensures |store'| == |kept|
    ensures r.Some? <==> exists i :: 0 <= i < |kept| && kept[i].status == Pending && kept[i].code == code
    ensures r.Some? ==> r.value.status == Consumed && r.value.code == code
    ensures r.Some? ==> forall i :: 0 <= i < |kept| ==>
      store'[i] == if kept[i].status == Pending && kept[i].code == code then r.value else kept[i]
    ensures r.None? ==> forall i :: 0 <= i < |kept| ==>
      store'[i].status != Pending && (kept[i].status != Pending ==> store'[i] == kept[i])
  {
    SweepKeepsInv(store);
    var i := FindPending(kept, code, 0);
    if i == |kept| {
      MissKeepsInv(kept, Attempt(code, input.platformId, now, false), store');
    } else {
      assert forall j :: 0 <= j < |kept| && kept[j].status == Pending && kept[j].code == code ==> j == i;
    }
  }

  // What a guess with its code makes of a pending record, field by field.
  lemma ConsumedFields(r: Record, input: Input, now: int, r': Record)
    requires RecordOk(r) && r.status == Pending && r' == Consume(r, r.code, input, now)
    ensures r'.code == r.code && r'.intent == r.intent && r'.createdAt == r.createdAt && r'.status == Consumed
    ensures r'.consumed.Some? && r'.consumed.value.platformId == input.platformId
    ensures r'.consumed.value.isGroup == input.isGroup && r'.consumed.value.name == input.name
    ensures r'.consumed.value.admin == input.admin && r'.consumed.value.at == now
    ensures r'.attempts == [Attempt(r.code, input.platformId, now, true)]
  {
  }

  // What a guess with another code makes of it: the wrong code is kept as its one attempt.
  lemma MissedFields(store: seq<Record>, code: string, input: Input, now: int, i: nat)
    requires Inv(store) && i < |store| && store[i].status == Pending
    requires forall j :: 0 <= j < |store| && store[j].status == Pending ==> store[j].code != code
    ensures |store| <= KEPT ==>
            var store' := Guess(store, code, input, now).1;
            |store'| == |store| && store'[i] == store[i].(status := Invalidated,
                                                          attempts := [Attempt(code, input.platformId, now, false)])
  {
    if |store| <= KEPT { assert RecordOk(store[i]); }
  }

  // In any record, an attempt is put behind the others, and the last ten are kept.
  lemma AttemptsAreAppended(r: Record, attempt: Attempt, i: nat)
    requires r.status == Pending
    ensures var before, after := r.attempts, Missed(r, attempt).attempts;
            && |after| == (if |before| < 10 then |before| + 1 else 10) && after[|after| - 1] == attempt
            && (i < |after| - 1 ==> after[i] == before[|before| + 1 - |after| + i])
  {
  }

  lemma MatchIsAppended(r: Record, code: string, input: Input, now: int)
    requires r.status == Pending
    ensures Consume(r, code, input, now).attempts == Missed(r, Attempt(code, input.platformId, now, true)).attempts
  {
  }

  // A creation fails exactly if each of fifty draws is the code of a record that stays pending.
  lemma CreationFailsExactlyWhen(store: seq<Record>, intent: Intent, draws: Draws, now: int)
    ensures |draws| == 50
    ensures Create(store, intent, draws, now).0.None?
            <==> forall i :: 0 <= i < 50 ==>
                   exists r :: r in Sweep(store) && r.status == Pending && r.intent != intent
                               && r.code == CodeOf(draws[i])
  {
    var kept := SupersedeAll(Sweep(store), intent);
    GeneratedIsFree(Codes(kept), draws, 0);
    forall code
      ensures code in Codes(kept)
              <==> exists r :: r in Sweep(store) && r.status == Pending && r.intent != intent && r.code == code
    {
      if r :| r in Sweep(store) && r.status == Pending && r.intent != intent && r.code == code {
        var i :| 0 <= i < |Sweep(store)| && Sweep(store)[i] == r;
        assert kept[i] == r;
      }
      if code in Codes(kept) {
        var r :| r in kept && r.status == Pending && r.code == code;
        var i :| 0 <= i < |kept| && kept[i] == r;
        assert Sweep(store)[i] == r;
      }
    }
  }

  // What a creation makes of the records it keeps: those pending for its intent are invalidated, all
  // others, pending for other intents or settled, stay; the new record waits behind them. Without a free
  // code nothing is written.
  lemma CreationKeeps(store: seq<Record>, intent: Intent, draws: Draws, now: int, kept: seq<Record>,
                      r: Option<Record>, store': seq<Record>)
    requires kept == Sweep(store) && (r, store') == Create(store, intent, draws, now)
    ensures r.None? ==> store' == store
    ensures r.Some? ==> |store'| == |kept| + 1 && store'[|kept|] == r.value
    ensures r.Some? ==> r.value.intent == intent && r.value.createdAt == now && r.value.status == Pending
                        && r.value.consumed == None && r.value.attempts == []
    ensures r.Some? ==> forall i :: 0 <= i < |kept| ==>
              store'[i] == if kept[i].status == Pending && kept[i].intent == intent then kept[i].(status := Invalidated)
                           else kept[i]
  {
    var superseded := SupersedeAll(kept, intent);
    assert forall i :: 0 <= i < |kept| ==> superseded[i] == Superseded(kept[i], intent);
  }

  // A sweep keeps the last fifty.
  lemma SweepKeepsTheLast(store: seq<Record>, i: nat)
    requires i < |store|
    ensures |Sweep(store)| == if |store| < 50 then |store| else 50
    ensures |store| - i <= 50 ==>
            |store| - i <= |Sweep(store)| && Sweep(store)[|Sweep(store)| - (|store| - i)] == store[i]
  {
  }

  // ---------------------------------------------------------------- looking a code up again

  // The first record with the code, which is the last one exactly if no earlier record has its code.
  lemma {:induction false} FindLast(store: seq<Record>, r: Record)
    requires r !in store
    ensures FindCode(store + [r], r.code) == Some(r) <==> forall i :: 0 <= i < |store| ==> store[i].code != r.code
    decreases |store|
  {
    if store == [] {
      assert store + [r] == [r];
    } else {
      assert (store + [r])[1..] == store[1..] + [r];
      FindLast(store[1..], r);
      assert forall i :: 1 <= i < |store| ==> store[i] == store[1..][i - 1];
      if store[0].code == r.code { assert store[0] in store; }
    }
  }

  lemma SweptAppend(kept: seq<Record>, r: Record)
    requires |kept| <= KEPT
    ensures Sweep(kept + [r]) == (if |kept| < KEPT then kept else kept[1..]) + [r]
  {
  }

  lemma CreatedIsNew(kept: seq<Record>, draws: Draws, r: Record)
    requires GenerateCode(Codes(kept), draws, 0) == Some(r.code) && r.status == Pending
    ensures r !in kept
  {
    GeneratedIsFree(Codes(kept), draws, 0);
    assert r in kept ==> r.code in Codes(kept);
  }

  // getPairing finds the record just created exactly if no older record of the last 50 has its code;
  // active codes are avoided, codes of settled records are not.
  lemma LookupFindsNewRecord(store: seq<Record>, intent: Intent, draws: Draws, now: int, r: Record,
                             store': seq<Record>, seen: seq<Record>)
    requires (Some(r), store') == Create(store, intent, draws, now) && seen == Sweep(store')
    ensures |seen| > 0 && seen[|seen| - 1] == r
    ensures GetPairing(store', r.code) == Some(r) <==> forall i :: 0 <= i < |seen| - 1 ==> seen[i].code != r.code
  {
    var kept := SupersedeAll(Sweep(store), intent);
    CreatedIsNew(kept, draws, r);
    SweptAppend(kept, r);
    var older := if |kept| < KEPT then kept else kept[1..];
    assert forall q :: q in older ==> q in kept;
    FindLast(older, r);
    assert forall i :: 0 <= i < |older| ==> seen[i] == older[i];
  }
}
