// src/circuit-breaker.ts: a growing delay before a startup that follows unclean shutdowns.
//
// Times are milliseconds. The file is written before the wait, so a process that dies while waiting
// still counts as an attempt.
module CircuitBreaker {
  import opened Wrappers

  const RESET_WINDOW_MS := 3600000
  const BACKOFF_SCHEDULE_S: seq<nat> := [0, 0, 10, 30, 120, 300, 900]

  datatype Saved = Saved(attempt: nat, timestamp: int)

  // getDelay; attempts are counted from 1.
  function DelaySec(attempt: nat): nat
    requires attempt >= 1
  {
    BACKOFF_SCHEDULE_S[if attempt - 1 < |BACKOFF_SCHEDULE_S| - 1 then attempt - 1 else |BACKOFF_SCHEDULE_S| - 1]
  }

  function NextAttempt(file: Option<Saved>, now: int): (a: nat)
    ensures a >= 1
  {
    if file.Some? && now - file.value.timestamp < RESET_WINDOW_MS then file.value.attempt + 1 else 1
  }

  class Breaker {
    var file: Option<Saved>

    constructor ()
      ensures file == None
    {
      file := None;
    }

    method ResetCircuitBreaker()
      modifies this
      ensures file == None
    {
      file := None;
    }

    // The delay is waited out after the file has been written.
    method EnforceStartupBackoff(now: int) returns (delaySec: nat)
      modifies this
      ensures file == Some(Saved(NextAttempt(old(file), now), now))
      ensures delaySec == DelaySec(NextAttempt(old(file), now))
    {
      var attempt := 1;
      if file.Some? {
        var elapsedMs := now - file.value.timestamp;
        if elapsedMs < RESET_WINDOW_MS {
          attempt := file.value.attempt + 1;
        }
      }
      file := Some(Saved(attempt, now));
      delaySec := DelaySec(attempt);
    }
  }

  // ---------------------------------------------------------------- histories

  datatype Event = Start(now: int) | CleanShutdown

  function After(file: Option<Saved>, e: Event): Option<Saved> {
    match e
    case Start(now) => Some(Saved(NextAttempt(file, now), now))
    case CleanShutdown => None
  }

  // The file after the first k events.
  function FileAt(file: Option<Saved>, events: seq<Event>, k: nat): Option<Saved>
    requires k <= |events|
    decreases k
  {
    if k == 0 then file else After(FileAt(file, events, k - 1), events[k - 1])
  }

  // Starts only, each less than an hour after the one before.
  ghost predicate Crashing(events: seq<Event>, i: nat, j: nat)
    requires i <= j < |events|
  {
    && (forall k :: i <= k <= j ==> events[k].Start?)
    && forall k :: i <= k < j ==> events[k + 1].now - events[k].now < RESET_WINDOW_MS
  }

  lemma DelayGrows(a: nat, b: nat)
    requires 1 <= a <= b
    ensures DelaySec(a) <= DelaySec(b) <= 900
  {
  }

  // Startups that follow each other without a clean shutdown and within the hour count up, so their
  // delays never shrink; no delay exceeds fifteen minutes.
  lemma {:induction false} DelaysNeverShrink(file: Option<Saved>, events: seq<Event>, i: nat, j: nat)
    requires i <= j < |events| && Crashing(events, i, j)
    ensures var first, last := FileAt(file, events, i + 1), FileAt(file, events, j + 1);
            && first.Some? && last.Some? && last.value.timestamp == events[j].now
            && 1 <= first.value.attempt && last.value.attempt == first.value.attempt + (j - i)
            && DelaySec(first.value.attempt) <= DelaySec(last.value.attempt) <= 900
    decreases j - i
  {
    if i < j {
      DelaysNeverShrink(file, events, i, j - 1);
    }
    DelayGrows(FileAt(file, events, i + 1).value.attempt, FileAt(file, events, j + 1).value.attempt);
  }

  // The schedule in numbers.
  lemma DelaysAre(a: nat)
    requires a >= 1
    ensures DelaySec(a) == if a <= 2 then 0 else if a == 3 then 10 else if a == 4 then 30 else if a == 5 then 120
                           else if a == 6 then 300 else 900
  {
  }

  // A start counts on exactly if the saved one is less than an hour ago; otherwise, and after a clean
  // shutdown, it is the first again and is not delayed.
  lemma CountsOnWithinTheHour(saved: Saved, now: int)
    ensures var next := After(Some(saved), Start(now));
            next == Some(Saved(if now - saved.timestamp < 60 * 60 * 1000 then saved.attempt + 1 else 1, now))
    ensures now - saved.timestamp >= 60 * 60 * 1000 ==> DelaySec(NextAttempt(Some(saved), now)) == 0
    ensures After(After(Some(saved), CleanShutdown), Start(now)) == Some(Saved(1, now))
  {
  }

  // ---------------------------------------------------------------- completed startups

  // One process: when it started, when it was over or up, and whether it came through its delay.
  datatype Startup = Startup(start: int, end: int, completed: bool)

  // No process starts before the last one has come up or died, and one that comes up has waited.
  ghost predicate Plausible(file: Option<Saved>, h: seq<Startup>, clock: int)
    decreases |h|
  {
    h == [] ||
    (&& clock <= h[0].start <= h[0].end
     && (h[0].completed ==> h[0].start + 1000 * DelaySec(NextAttempt(file, h[0].start)) <= h[0].end)
     && Plausible(After(file, Start(h[0].start)), h[1..], h[0].end))
  }

  function CompletedBefore(h: seq<Startup>, limit: int): nat {
    if h == [] then 0 else (if h[0].completed && h[0].end < limit then 1 else 0) + CompletedBefore(h[1..], limit)
  }

  // The least time, in seconds, that n completed startups take.
  function WaitedSec(n: nat): nat { if n == 0 then 0 else WaitedSec(n - 1) + DelaySec(n) }

  lemma NineFitTenDoNot()
    ensures WaitedSec(9) == 3160 && WaitedSec(10) == 4060
  {
    assert WaitedSec(3) == 10;
    assert WaitedSec(6) == 460;
    assert WaitedSec(8) == 2260;
  }

  lemma {:induction false} NoneAfterTheLimit(file: Option<Saved>, h: seq<Startup>, clock: int, limit: int)
    requires Plausible(file, h, clock) && limit <= clock
    ensures CompletedBefore(h, limit) == 0
    decreases |h|
  {
    if h != [] {
      NoneAfterTheLimit(After(file, Start(h[0].start)), h[1..], h[0].end, limit);
    }
  }

  // n startups have come up since begin; the attempts counted so far are at least as many.
  lemma {:induction false} AtMostNineMore(saved: Saved, h: seq<Startup>, clock: int, begin: int, n: nat)
    requires Plausible(Some(saved), h, clock)
    requires n <= 9 && n <= saved.attempt && begin <= saved.timestamp && begin + 1000 * WaitedSec(n) <= clock
    ensures n + CompletedBefore(h, begin + RESET_WINDOW_MS) <= 9
    decreases |h|
  {
    if h != [] {
      var limit := begin + RESET_WINDOW_MS;
      var next := After(Some(saved), Start(h[0].start));
      if h[0].end < limit {
        assert next == Some(Saved(saved.attempt + 1, h[0].start));
        if h[0].completed {
          DelayGrows(n + 1, saved.attempt + 1);
          NineFitTenDoNot();
          assert WaitedSec(n + 1) == WaitedSec(n) + DelaySec(n + 1);
          AtMostNineMore(next.value, h[1..], h[0].end, begin, n + 1);
        } else {
          AtMostNineMore(next.value, h[1..], h[0].end, begin, n);
        }
      } else {
        NoneAfterTheLimit(next, h[1..], h[0].end, limit);
      }
    }
  }

  // However many processes crash or die while waiting, fewer than ten come up within an hour of a first attempt.
  lemma AtMostNineInAnHour(file: Option<Saved>, h: seq<Startup>)
    requires h != [] && NextAttempt(file, h[0].start) == 1 && Plausible(file, h, h[0].start)
    ensures CompletedBefore(h, h[0].start + RESET_WINDOW_MS) <= 9
  {
    var begin := h[0].start;
    var saved := Saved(1, begin);
    assert After(file, Start(begin)) == Some(saved);
    if h[0].end < begin + RESET_WINDOW_MS {
      assert WaitedSec(1) == 0;
      AtMostNineMore(saved, h[1..], h[0].end, begin, if h[0].completed then 1 else 0);
    } else {
      NoneAfterTheLimit(Some(saved), h[1..], h[0].end, begin + RESET_WINDOW_MS);
    }
  }

  // A process that comes up at once and crashes at once, n times from the k-th attempt on.
  function CrashLoop(attempt: nat, now: int, n: nat): seq<Startup>
    requires attempt >= 1
    decreases n
  {
    if n == 0 then []
    else
      var up := now + 1000 * DelaySec(attempt);
      [Startup(now, up, true)] + CrashLoop(attempt + 1, up, n - 1)
  }

  lemma {:induction false} CrashLoopIsPlausible(file: Option<Saved>, attempt: nat, now: int, n: nat)
    requires attempt >= 1 && NextAttempt(file, now) == attempt
    ensures Plausible(file, CrashLoop(attempt, now, n), now)
    decreases n
  {
    if n > 0 {
      var up := now + 1000 * DelaySec(attempt);
      DelayGrows(attempt, attempt);
      assert CrashLoop(attempt, now, n)[1..] == CrashLoop(attempt + 1, up, n - 1);
      CrashLoopIsPlausible(Some(Saved(attempt, now)), attempt + 1, up, n - 1);
    }
  }

  lemma {:induction false} CrashLoopCompletes(attempt: nat, now: int, begin: int, last: nat, limit: int)
    requires 1 <= attempt <= last + 1 && now == begin + 1000 * WaitedSec(attempt - 1)
    requires begin + 1000 * WaitedSec(last) < limit
    ensures CompletedBefore(CrashLoop(attempt, now, last + 1 - attempt), limit) == last + 1 - attempt
    decreases last + 1 - attempt
  {
    if attempt <= last {
      var up := now + 1000 * DelaySec(attempt);
      assert WaitedSec(attempt) == WaitedSec(attempt - 1) + DelaySec(attempt);
      WaitedGrows(attempt, last);
      CrashLoopCompletes(attempt + 1, up, begin, last, limit);
      assert CrashLoop(attempt, now, last + 1 - attempt)
        == [Startup(now, up, true)] + CrashLoop(attempt + 1, up, last - attempt);
    }
  }

  lemma {:induction false} WaitedGrows(a: nat, b: nat)
    requires a <= b
    ensures WaitedSec(a) <= WaitedSec(b)
    decreases b - a
  {
    if a < b { WaitedGrows(a, b - 1); }
  }

  // Nine is reached: by a process that crashes as soon as it is up.
  lemma NineAreReached(now: int)
    ensures var h := CrashLoop(1, now, 9);
            Plausible(None, h, now) && CompletedBefore(h, now + RESET_WINDOW_MS) == 9
  {
    CrashLoopIsPlausible(None, 1, now, 9);
    NineFitTenDoNot();
    CrashLoopCompletes(1, now, now, 9, now + RESET_WINDOW_MS);
  }
}
