/**
 * The retry engine: a supervisor that restarts work on errors until too many fall into
 * one error-free window, and a caller that repeats a function with exponential backoff
 * in 64-bit integers.
 */
module Retrying {
  import opened MachineInts

  // --- The supervisor -----------------------------------------------------------------

  // What the select receives next.
  datatype Event<E> = ContextDone | ResetTimeout | Failed(error: E) | ChannelClosed

  datatype Ending<E> = Pending | Nil | GaveUp(error: E)

  // Errors since the last error-free window (or since the start).
  function ErrorsSinceReset<E>(events: seq<Event<E>>): nat {
    if |events| == 0 then 0
    else match events[|events| - 1]
      case ResetTimeout => 0
      case Failed(_) => ErrorsSinceReset(events[..|events| - 1]) + 1
      case _ => ErrorsSinceReset(events[..|events| - 1])
  }

  function Errors<E>(events: seq<Event<E>>): nat {
    if |events| == 0 then 0
    else Errors(events[..|events| - 1]) + if events[|events| - 1].Failed? then 1 else 0
  }

  // The errors so far, and those of them that no reset has followed.
  ghost function ErrorIndices<E>(events: seq<Event<E>>): set<nat> {
    set i: nat | i < |events| && events[i].Failed?
  }

  ghost function WindowErrors<E>(events: seq<Event<E>>): set<nat> {
    set i: nat | i < |events| && events[i].Failed? && forall j :: i < j < |events| ==> !events[j].ResetTimeout?
  }

  lemma ErrorsSnoc<E>(events: seq<Event<E>>)
    requires |events| > 0
    ensures var n := |events| - 1;
            |ErrorIndices(events)| == |ErrorIndices(events[..n])| + if events[n].Failed? then 1 else 0
  {
    var n := |events| - 1;
    assert ErrorIndices(events) == ErrorIndices(events[..n]) + if events[n].Failed? then {n} else {};
  }

  lemma WindowSnoc<E>(events: seq<Event<E>>)
    requires |events| > 0
    ensures var n := |events| - 1;
            |WindowErrors(events)| ==
            if events[n].ResetTimeout? then 0
            else |WindowErrors(events[..n])| + if events[n].Failed? then 1 else 0
  {
    var n := |events| - 1;
    if events[n].ResetTimeout? {
      assert WindowErrors(events) == {};
    } else {
      assert WindowErrors(events) == WindowErrors(events[..n]) + if events[n].Failed? then {n} else {};
    }
  }

  lemma {:induction false} CountsAreCardinalities<E>(events: seq<Event<E>>)
    ensures ErrorsSinceReset(events) == |WindowErrors(events)|
    ensures Errors(events) == |ErrorIndices(events)|
  {
    if |events| > 0 {
      CountsAreCardinalities(events[..|events| - 1]);
      ErrorsSnoc(events);
      WindowSnoc(events);
      hide WindowErrors, ErrorIndices;
    }
  }

  // After a reset only what follows it counts; without one everything does.
  lemma ResetOpensWindow<E>(a: seq<Event<E>>, b: seq<Event<E>>)
    requires forall e <- b :: !e.ResetTimeout?
    ensures ErrorsSinceReset(b) == |ErrorIndices(b)|
    ensures ErrorsSinceReset(a + [ResetTimeout] + b) == |ErrorIndices(b)|
  {
    CountsAreCardinalities(b);
    assert WindowErrors(b) == ErrorIndices(b);
    CountAfterReset(a, b);
  }

  lemma {:induction false} CountAfterReset<E>(a: seq<Event<E>>, b: seq<Event<E>>)
    requires forall e <- b :: !e.ResetTimeout?
    ensures ErrorsSinceReset(a + [ResetTimeout] + b) == ErrorsSinceReset(b)
  {
    var all := a + [ResetTimeout] + b;
    if |b| == 0 {
      assert all[|all| - 1] == ResetTimeout;
    } else {
      CountAfterReset(a, b[..|b| - 1]);
      assert all[..|all| - 1] == a + [ResetTimeout] + b[..|b| - 1];
      assert b[|b| - 1] in b;
    }
  }

  // The supervisor goes on after event k: the context and the channel are there, and the
  // error, if it is one, has fewer than the limit before it in its window.
  ghost predicate GoesOn<E>(events: seq<Event<E>>, limit: int, k: nat)
    requires k < |events|
  {
    && !events[k].ContextDone? && !events[k].ChannelClosed?
    && (events[k].Failed? ==> limit < 0 || |WindowErrors(events[..k])| < limit)
  }

  // Runs until it stops or the events run out.  `started` counts the invocations of the
  // work function and `waits` the delays slept before each restart.
  method OnError<E>(events: seq<Event<E>>, retryLimit: int, retryDelay: int)
    returns (ending: Ending<E>, started: nat, waits: seq<int>, heard: nat)
    ensures heard <= |events| && started > 0 && waits == seq(started - 1, i => retryDelay)
    ensures ending.Pending? ==> heard == |events| && (forall j :: 0 <= j < heard ==> GoesOn(events, retryLimit, j))
                                && started == 1 + |ErrorIndices(events)|
    ensures !ending.Pending? ==> heard > 0 && (forall j :: 0 <= j < heard - 1 ==> GoesOn(events, retryLimit, j))
                                 && started == 1 + |ErrorIndices(events[..heard - 1])|
    ensures ending.Nil? ==> events[heard - 1].ContextDone? || events[heard - 1].ChannelClosed?
    ensures ending.GaveUp? ==> events[heard - 1] == Failed(ending.error)
                               && 0 <= retryLimit == |WindowErrors(events[..heard - 1])|
  {
    var retryCount := 0;
    started, waits, heard := 1, [], 0;
    while heard < |events|
      invariant heard <= |events|
      invariant retryCount == ErrorsSinceReset(events[..heard])
      invariant started == 1 + Errors(events[..heard])
      invariant waits == seq(started - 1, i => retryDelay)
      invariant forall j :: 0 <= j < heard ==> GoesOn(events, retryLimit, j)
    {
      var event := events[heard];
      assert events[..heard + 1][..heard] == events[..heard];
      CountsAreCardinalities(events[..heard]);
      heard := heard + 1;
      match event {
        case ContextDone =>
          return Nil, started, waits, heard;
        case ResetTimeout =>
          retryCount := 0;
        case ChannelClosed =>
          return Nil, started, waits, heard;
        case Failed(error) =>
          if retryLimit >= 0 && retryCount >= retryLimit {
            NeverPastLimit(events, retryLimit, heard - 1);
            return GaveUp(error), started, waits, heard;
          }
          waits := waits + [retryDelay];
          retryCount := retryCount + 1;
          started := started + 1;
      }
    }
    assert events[..|events|] == events;
    CountsAreCardinalities(events);
    ending := Pending;
  }

  // While it goes on, and when it stops, a window never holds more than the limit.
  lemma {:induction false} NeverPastLimit<E>(events: seq<Event<E>>, limit: int, k: nat)
    requires 0 <= limit && k <= |events|
    requires forall j :: 0 <= j < k ==> GoesOn(events, limit, j)
    ensures |WindowErrors(events[..k])| <= limit
  {
    CountsAreCardinalities(events[..k]);
    if k > 0 {
      NeverPastLimit(events, limit, k - 1);
      CountsAreCardinalities(events[..k - 1]);
      assert events[..k][..k - 1] == events[..k - 1];
      assert GoesOn(events, limit, k - 1);
    }
  }

  // An error is the first event it does not go on after exactly when it follows exactly
  // `limit` errors of its window, every error before it fewer, and nothing else has stopped
  // the supervisor.  With a negative limit no error is.
  lemma GivesUpExactly<E>(events: seq<Event<E>>, limit: int, k: nat)
    requires k < |events| && events[k].Failed?
    ensures (!GoesOn(events, limit, k) && forall j :: 0 <= j < k ==> GoesOn(events, limit, j)) <==>
            && 0 <= limit
            && |WindowErrors(events[..k])| == limit
            && (forall j :: 0 <= j < k && events[j].Failed? ==> |WindowErrors(events[..j])| < limit)
            && (forall j :: 0 <= j < k ==> !events[j].ContextDone? && !events[j].ChannelClosed?)
  {
    hide WindowErrors;
    if !GoesOn(events, limit, k) && forall j :: 0 <= j < k ==> GoesOn(events, limit, j) {
      NeverPastLimit(events, limit, k);
      forall j | 0 <= j < k
        ensures !events[j].ContextDone? && !events[j].ChannelClosed?
        ensures events[j].Failed? ==> |WindowErrors(events[..j])| < limit
      {
        assert GoesOn(events, limit, j);
      }
    }
  }

  // --- The caller ---------------------------------------------------------------------

  datatype Error = NoError | NonRetryable | Grpc(code: nat) | Other

  datatype Attempt<T> = Attempt(result: T, error: Error)

  // Canceled, Unknown, DeadlineExceeded, ResourceExhausted, Aborted, Internal, Unavailable.
  const TRANSIENT_CODES: set<nat> := {1, 2, 4, 8, 10, 13, 14}

  // Success, or an error that is not worth a retry.
  predicate Settled(error: Error) {
    match error
    case NoError => true
    case NonRetryable => true
    case Grpc(code) => code !in TRANSIENT_CODES
    case Other => false
  }

  // The errors that are retried, one by one.
  predicate WorthRetrying(error: Error) {
    || error == Other
    || error == Grpc(1) || error == Grpc(2) || error == Grpc(4) || error == Grpc(8)
    || error == Grpc(10) || error == Grpc(13) || error == Grpc(14)
  }

  lemma SettledIsNotWorthIt(error: Error)
    ensures Settled(error) <==> !WorthRetrying(error)
  {
  }

  datatype Backoff = Backoff(maxRetryCount: int, initialDelayMs: int, maxDelayMs: int)

  // Two's complement wrap-around.
  function Wrap(x: int): Int64 {
    (x - MIN_INT64) % TWO_TO_64 + MIN_INT64
  }

  function Pow2(k: nat): nat {
    if k == 0 then 1 else 2 * Pow2(k - 1)
  }

  // The power of two as a float made an integer: exact while it fits; what an integer
  // that does not fit becomes is up to the machine.
  function PowerAsInt(k: nat, machine: nat -> Int64): int {
    if k < 63 then Pow2(k) else machine(k)
  }

  function Min(a: int, b: int): int {
    if a < b then a else b
  }

  // The delay before retry k, in milliseconds, as the strategy computes it.
  function DelayMs(b: Backoff, k: nat, machine: nat -> Int64): int {
    Min(Wrap(b.initialDelayMs * PowerAsInt(k, machine)), b.maxDelayMs)
  }

  const NS_PER_MS := 1_000_000

  // The duration it waits for: nanoseconds, in 64 bits again.
  function DelayNs(b: Backoff, k: nat, machine: nat -> Int64): Int64 {
    Wrap(NS_PER_MS * DelayMs(b, k, machine))
  }

  // A timer for a negative duration fires at once.
  function Waited(ns: Int64): nat {
    if ns < 0 then 0 else ns
  }

  // What a strategy says about a retry, and the durations it waits for before it does.
  datatype Answer = Answer(retry: bool, waits: seq<Int64>)

  // Attempt k is the last one: it settles, or the strategy allows no retry after it.
  predicate LastAttempt<T>(work: nat -> Attempt<T>, strategy: nat -> Answer, k: nat) {
    Settled(work(k).error) || !strategy(k).retry
  }

  // The durations waited for when the strategy is asked about retries 0 to asked - 1.
  function WaitsOf(strategy: nat -> Answer, asked: nat): seq<Int64> {
    if asked == 0 then [] else WaitsOf(strategy, asked - 1) + strategy(asked - 1).waits
  }

  // `work(k)` is what the k-th invocation returns and `strategy(k)` what the strategy says
  // about retry k.  Under a strategy that never says no the loop need not end, so this is
  // its first `patience` retries, and `ended` says whether it was over by then.
  method Call<T>(work: nat -> Attempt<T>, strategy: nat -> Answer, patience: nat)
    returns (ended: bool, result: T, error: Error, invocations: nat, waits: seq<Int64>)
    ensures 1 <= invocations <= patience + 1
    ensures Attempt(result, error) == work(invocations - 1)
    ensures forall k :: 0 <= k < invocations - 1 ==> !LastAttempt(work, strategy, k)
    ensures ended <==> LastAttempt(work, strategy, invocations - 1)
    ensures forall k :: 0 <= k < invocations - 1 ==> WorthRetrying(work(k).error) && strategy(k).retry
    ensures ended <==> !WorthRetrying(error) || !strategy(invocations - 1).retry
    ensures !ended ==> invocations == patience + 1
    ensures waits == WaitsOf(strategy, if Settled(error) then invocations - 1 else invocations)
  {
    var retryCount := 0;
    waits := [];
    while true
      invariant 0 <= retryCount <= patience
      invariant forall k :: 0 <= k < retryCount ==> !LastAttempt(work, strategy, k)
      invariant forall k :: 0 <= k < retryCount ==> WorthRetrying(work(k).error) && strategy(k).retry
      invariant waits == WaitsOf(strategy, retryCount)
      decreases patience - retryCount
    {
      var attempt := work(retryCount);
      result, error, invocations := attempt.result, attempt.error, retryCount + 1;
      SettledIsNotWorthIt(error);
      if Settled(error) {
        return true, result, error, invocations, waits;
      }
      var answer := strategy(retryCount);
      waits := waits + answer.waits;
      if !answer.retry {
        return true, result, error, invocations, waits;
      }
      if retryCount == patience {
        return false, result, error, invocations, waits;
      }
      retryCount := retryCount + 1;
    }
  }

  function Retries(b: Backoff): nat {
    if b.maxRetryCount > 0 then b.maxRetryCount else 0
  }

  // The backoff says no past the maximum, and otherwise waits; it says yes when the delay is
  // over before the context.  (A delay that the context cuts off is not waited out.)
  function WithExponentialBackoff(b: Backoff, elapses: nat -> bool, machine: nat -> Int64): nat -> Answer {
    (k: nat) => if k >= b.maxRetryCount then Answer(false, []) else Answer(elapses(k), [DelayNs(b, k, machine)])
  }

  // The durations of its first `asked` delays, of which there are no more than retries.
  function Delays(b: Backoff, asked: nat, machine: nat -> Int64): seq<Int64> {
    seq(if asked < Retries(b) then asked else Retries(b), k requires k >= 0 => DelayNs(b, k, machine))
  }

  lemma {:induction false} BackoffWaits(b: Backoff, elapses: nat -> bool, machine: nat -> Int64, asked: nat)
    ensures WaitsOf(WithExponentialBackoff(b, elapses, machine), asked) == Delays(b, asked, machine)
  {
    if asked > 0 {
      BackoffWaits(b, elapses, machine, asked - 1);
    }
  }

  // With backoff the call ends, after at most one invocation more than the retries allowed,
  // having waited for the delays before them.
  method CallWithBackoff<T>(work: nat -> Attempt<T>, b: Backoff, elapses: nat -> bool, machine: nat -> Int64)
    returns (result: T, error: Error, invocations: nat, waits: seq<Int64>)
    ensures 1 <= invocations <= Retries(b) + 1
    ensures Attempt(result, error) == work(invocations - 1)
    ensures LastAttempt(work, WithExponentialBackoff(b, elapses, machine), invocations - 1)
    ensures forall k :: 0 <= k < invocations - 1 ==>
              !LastAttempt(work, WithExponentialBackoff(b, elapses, machine), k)
    ensures forall k :: 0 <= k < invocations - 1 ==> WorthRetrying(work(k).error) && k < b.maxRetryCount && elapses(k)
    ensures !WorthRetrying(error) || invocations - 1 >= b.maxRetryCount || !elapses(invocations - 1)
    ensures waits == Delays(b, if Settled(error) then invocations - 1 else invocations, machine)
    ensures invocations - 1 <= |waits| <= invocations
  {
    var ended;
    ended, result, error, invocations, waits := Call(work, WithExponentialBackoff(b, elapses, machine), Retries(b));
    SettledIsNotWorthIt(error);
    BackoffWaits(b, elapses, machine, if Settled(error) then invocations - 1 else invocations);
  }

  // --- The delays ---------------------------------------------------------------------

  // The delay the documentation promises.
  function Promised(b: Backoff, k: nat): int {
    Min(b.initialDelayMs * Pow2(k), b.maxDelayMs)
  }

  lemma {:induction false} Pow2Grows(j: nat, k: nat)
    requires j <= k
    ensures Pow2(j) <= Pow2(k)
    decreases k
  {
    if j < k {
      Pow2Grows(j, k - 1);
    }
  }

  lemma Pow2At63()
    ensures Pow2(63) == 0x8000_0000_0000_0000
  {
    assert Pow2(8) == 0x100;
    assert Pow2(16) == 0x1_0000;
    assert Pow2(24) == 0x100_0000;
    assert Pow2(32) == 0x1_0000_0000;
    assert Pow2(40) == 0x100_0000_0000;
    assert Pow2(48) == 0x1_0000_0000_0000;
    assert Pow2(56) == 0x100_0000_0000_0000;
  }

  lemma Pow2From54()
    ensures Pow2(54) == 0x40_0000_0000_0000 && Pow2(55) == 0x80_0000_0000_0000
    ensures Pow2(56) == 0x100_0000_0000_0000 && Pow2(57) == 0x200_0000_0000_0000
    ensures Pow2(58) == 0x400_0000_0000_0000 && Pow2(59) == 0x800_0000_0000_0000
    ensures Pow2(60) == 0x1000_0000_0000_0000 && Pow2(61) == 0x2000_0000_0000_0000
    ensures Pow2(62) == 0x4000_0000_0000_0000
  {
    Pow2At63();
  }

  lemma WrapIs(x: int, turns: int, r: Int64)
    requires x == TWO_TO_64 * turns + r
    ensures Wrap(x) == r
  {
  }

  lemma WrapFits(x: int)
    ensures 0 <= x <= MAX_INT64 ==> Wrap(x) == x
    ensures MAX_INT64 < x <= 2 * MAX_INT64 + 1 ==> Wrap(x) < 0
  {
  }

  lemma PowersFit(k: nat)
    ensures k >= 63 ==> Pow2(k) > MAX_INT64
    ensures k < 63 ==> Pow2(k) <= MAX_INT64
  {
    Pow2At63();
    if k >= 63 {
      Pow2Grows(63, k);
    } else {
      Pow2Grows(k, 62);
    }
  }

  lemma ProductGrows(a: nat, p: nat, q: nat)
    requires p <= q
    ensures a * p <= a * q
  {
  }

  // The promised delay fits a duration.
  predicate Fits(b: Backoff, k: nat) {
    MIN_INT64 <= NS_PER_MS * Promised(b, k) <= MAX_INT64
  }

  // While the product fits, the milliseconds are the promised ones.
  lemma MillisecondsExact(b: Backoff, k: nat, machine: nat -> Int64)
    requires 0 <= b.initialDelayMs && b.initialDelayMs * Pow2(k) <= MAX_INT64
    ensures DelayMs(b, k, machine) == Promised(b, k)
  {
    hide Wrap;
    PowersFit(k);
    Pow2Grows(0, k);
    ProductGrows(b.initialDelayMs, 1, Pow2(k));
    if k >= 63 {
      if b.initialDelayMs > 0 {
        ProductGrows(Pow2(k), 1, b.initialDelayMs);
      }
      assert b.initialDelayMs == 0;
      assert b.initialDelayMs * PowerAsInt(k, machine) == 0 == b.initialDelayMs * Pow2(k);
    }
    WrapFits(b.initialDelayMs * Pow2(k));
  }

  // While it and the promise in nanoseconds fit, so is the duration.
  lemma DelayExact(b: Backoff, k: nat, machine: nat -> Int64)
    requires 0 <= b.initialDelayMs && b.initialDelayMs * Pow2(k) <= MAX_INT64 && Fits(b, k)
    ensures DelayNs(b, k, machine) == NS_PER_MS * Promised(b, k)
  {
    MillisecondsExact(b, k, machine);
  }

  // Equal after wrapping are numbers that differ by a multiple of the modulus.
  lemma WrapsMeet(x: int, y: int) returns (q: int)
    ensures Wrap(x) == Wrap(y) ==> x - y == TWO_TO_64 * q
  {
    q := (x - MIN_INT64) / TWO_TO_64 - (y - MIN_INT64) / TWO_TO_64;
  }

  lemma WrapAgain(x: int, turns: int)
    ensures Wrap(x + TWO_TO_64 * turns) == Wrap(x)
  {
  }

  // Milliseconds make the same nanoseconds exactly when they are equal modulo 2^58, for
  // the factor is 2^6 times an odd number.
  lemma SameNanoseconds(a: int, c: int)
    ensures Wrap(NS_PER_MS * a) == Wrap(NS_PER_MS * c) <==> (a - c) % 0x400_0000_0000_0000 == 0
  {
    var q := WrapsMeet(NS_PER_MS * a, NS_PER_MS * c);
    var k := (a - c) / 0x400_0000_0000_0000;
    WrapAgain(NS_PER_MS * c, 15625 * k);
    hide Wrap;
    if Wrap(NS_PER_MS * a) == Wrap(NS_PER_MS * c) {
      InvertNanoseconds(a - c, q);
    }
  }

  lemma InvertNanoseconds(x: int, q: int)
    requires NS_PER_MS * x == TWO_TO_64 * q
    ensures x % 0x400_0000_0000_0000 == 0
  {
    assert x == 0x400_0000_0000_0000 * (0x10fb65668c26139 * q - 0x1032 * x);
  }

  // Every delay, whatever overflows on the way: the duration is the promised one exactly
  // when the promise fits a duration and the milliseconds either were computed without
  // overflow, or came out no less than the maximum, or are off by a multiple of 2^58.
  lemma DelayExactly(b: Backoff, k: nat, machine: nat -> Int64)
    requires 0 <= b.initialDelayMs && 0 <= b.maxDelayMs <= MAX_INT64
    ensures var ms := Wrap(b.initialDelayMs * PowerAsInt(k, machine));
            DelayNs(b, k, machine) == NS_PER_MS * Promised(b, k) <==>
            && Fits(b, k)
            && (|| b.initialDelayMs * Pow2(k) <= MAX_INT64
                || ms >= b.maxDelayMs
                || (ms - b.maxDelayMs) % 0x400_0000_0000_0000 == 0)
  {
    if b.initialDelayMs * Pow2(k) <= MAX_INT64 {
      MillisecondsExact(b, k, machine);
    }
    var promised := Promised(b, k);
    SameNanoseconds(DelayMs(b, k, machine), promised);
    WrapIsItself(NS_PER_MS * promised);
    hide Wrap;
  }

  lemma WrapIsItself(x: int)
    ensures Wrap(x) == x <==> MIN_INT64 <= x <= MAX_INT64
  {
  }

  // As long as powers of two are integers, the milliseconds up to retry k are all as
  // promised exactly when the last of their products fits: the first that does not comes
  // out negative.
  lemma MillisecondsExactWhileFitting(b: Backoff, k: nat, machine: nat -> Int64)
    requires 1 <= b.initialDelayMs <= MAX_INT64 && 0 <= b.maxDelayMs && k < 63
    ensures (forall j: nat :: j <= k ==> DelayMs(b, j, machine) == Promised(b, j)) <==>
            b.initialDelayMs * Pow2(k) <= MAX_INT64
  {
    var d := b.initialDelayMs;
    if d * Pow2(k) <= MAX_INT64 {
      forall j: nat | j <= k
        ensures DelayMs(b, j, machine) == Promised(b, j)
      {
        Pow2Grows(j, k);
        ProductGrows(d, Pow2(j), Pow2(k));
        MillisecondsExact(b, j, machine);
      }
    } else {
      var j := FirstOverflow(d, k);
      WrapFits(d * Pow2(j));
      hide Wrap;
      assert DelayMs(b, j, machine) < 0 <= Promised(b, j);
    }
  }

  lemma {:induction false} FirstOverflow(d: nat, k: nat) returns (j: nat)
    requires d <= MAX_INT64 < d * Pow2(k)
    ensures 0 < j <= k && MAX_INT64 < d * Pow2(j) <= 2 * MAX_INT64
  {
    assert d * Pow2(k) == 2 * (d * Pow2(k - 1));
    if d * Pow2(k - 1) <= MAX_INT64 {
      j := k;
    } else {
      j := FirstOverflow(d, k - 1);
    }
  }

  // Negative milliseconds need not mean that there is no wait: in nanoseconds they may wrap
  // once more.  From 129 ms, retry 56 waits for 2^62 nanoseconds, or 146 years.
  lemma OverflowWaits(maxDelayMs: Int64, machine: nat -> Int64)
    requires 0 <= maxDelayMs
    ensures DelayMs(Backoff(57, 129, maxDelayMs), 56, machine) < 0
    ensures DelayNs(Backoff(57, 129, maxDelayMs), 56, machine) == 0x4000_0000_0000_0000
  {
    Pow2From54();
    WrapIs(129 * Pow2(56), 1, -0x7f00000000000000);
    WrapIs(NS_PER_MS * -0x7f00000000000000, -496094, 0x4000_0000_0000_0000);
    hide Wrap;
  }

  // What fits at retry k fits at the retries before it.
  lemma FitsEarlier(b: Backoff, j: nat, k: nat)
    requires j <= k && 0 <= b.initialDelayMs && b.initialDelayMs * Pow2(k) <= MAX_INT64 && Fits(b, k)
    ensures b.initialDelayMs * Pow2(j) <= b.initialDelayMs * Pow2(k) && Fits(b, j)
  {
    Pow2Grows(j, k);
    ProductGrows(b.initialDelayMs, Pow2(j), Pow2(k));
  }

  // While they fit, later delays are no shorter.
  lemma DelayNondecreasing(b: Backoff, j: nat, k: nat, machine: nat -> Int64)
    requires j <= k && 0 <= b.initialDelayMs && b.initialDelayMs * Pow2(k) <= MAX_INT64 && Fits(b, k)
    ensures DelayNs(b, j, machine) <= DelayNs(b, k, machine)
  {
    FitsEarlier(b, j, k);
    DelayExact(b, j, machine);
    DelayExact(b, k, machine);
    hide DelayNs, Fits;
  }

  // The whole time that timers for these durations run.
  function TotalWaited(delays: seq<Int64>): nat {
    if |delays| == 0 then 0 else TotalWaited(delays[..|delays| - 1]) + Waited(delays[|delays| - 1])
  }

  // What a call waits in total over n delays that fit.
  lemma {:induction false} TotalWait(b: Backoff, n: nat, machine: nat -> Int64)
    requires 0 <= b.initialDelayMs && n <= Retries(b)
    requires n > 0 ==> b.initialDelayMs * Pow2(n - 1) <= MAX_INT64 && Fits(b, n - 1)
    ensures TotalWaited(Delays(b, n, machine)) <= NS_PER_MS * (n * if b.maxDelayMs < 0 then 0 else b.maxDelayMs)
    ensures TotalWaited(Delays(b, n, machine)) <= NS_PER_MS * (b.initialDelayMs * (Pow2(n) - 1))
  {
    if n == 0 {
      return;
    }
    if n > 1 {
      FitsEarlier(b, n - 2, n - 1);
    }
    TotalWait(b, n - 1, machine);
    WaitBound(b, n - 1, machine);
    DoublePower(b.initialDelayMs, n);
    assert Delays(b, n, machine)[..n - 1] == Delays(b, n - 1, machine);
    var max := if b.maxDelayMs < 0 then 0 else b.maxDelayMs;
    assert n * max == (n - 1) * max + max;
  }

  lemma DoublePower(d: int, n: nat)
    requires n > 0
    ensures d * (Pow2(n) - 1) == d * (Pow2(n - 1) - 1) + d * Pow2(n - 1)
  {
  }

  lemma WaitBound(b: Backoff, k: nat, machine: nat -> Int64)
    requires 0 <= b.initialDelayMs && b.initialDelayMs * Pow2(k) <= MAX_INT64 && Fits(b, k)
    ensures Waited(DelayNs(b, k, machine)) <= NS_PER_MS * (if b.maxDelayMs < 0 then 0 else b.maxDelayMs)
    ensures Waited(DelayNs(b, k, machine)) <= NS_PER_MS * (b.initialDelayMs * Pow2(k))
  {
    DelayExact(b, k, machine);
    ProductGrows(b.initialDelayMs, 0, Pow2(k));
    hide DelayNs, Fits;
  }

  // --- The default strategy -----------------------------------------------------------

  // The default passes its maximum delay for its retry count as well.
  const DEFAULT_BACKOFF := Backoff(30000, 500, 30000)

  // What out-of-range conversions give on the machines at hand: the smallest integer, or
  // the largest.
  ghost predicate UsualMachine(machine: nat -> Int64) {
    forall k :: machine(k) == MIN_INT64 || machine(k) == MAX_INT64
  }

  // The promise is kept for retries 0 to 54, and again, by accident, for retry 60; every
  // other one of the 30000 retries is not waited for.
  lemma DefaultDelays(k: nat, machine: nat -> Int64)
    requires UsualMachine(machine)
    ensures DelayNs(DEFAULT_BACKOFF, k, machine) == NS_PER_MS * Promised(DEFAULT_BACKOFF, k) <==> k <= 54 || k == 60
    ensures k > 54 && k != 60 ==> Waited(DelayNs(DEFAULT_BACKOFF, k, machine)) == 0
  {
    Pow2From54();
    if k <= 54 {
      Pow2Grows(k, 54);
      Pow2Grows(0, k);
      ProductGrows(500, Pow2(k), Pow2(54));
      DelayExact(DEFAULT_BACKOFF, k, machine);
    } else {
      Pow2Grows(54, k);
      ProductGrows(500, Pow2(54), Pow2(k));
      if k < 63 {
        LateDefault(k, machine);
      }
    }
  }

  lemma LateDefault(k: nat, machine: nat -> Int64)
    requires 54 < k < 63
    ensures if k == 60 then DelayNs(DEFAULT_BACKOFF, k, machine) == 30_000_000_000
            else DelayNs(DEFAULT_BACKOFF, k, machine) <= 0
  {
    Pow2From54();
    if
    case k == 55 => LateDelay(k, machine, 1, -0x600000000000000, -23437, MIN_INT64);
    case k == 56 => LateDelay(k, machine, 2, -0xc00000000000000, -46875, 0);
    case k == 57 => LateDelay(k, machine, 4, -0x1800000000000000, -93750, 0);
    case k == 58 => LateDelay(k, machine, 8, -0x3000000000000000, -187500, 0);
    case k == 59 => LateDelay(k, machine, 16, -0x6000000000000000, -375000, 0);
    case k == 60 => LateDelay(k, machine, 31, 0x4000000000000000, 0, 30_000_000_000);
    case k == 61 => LateDelay(k, machine, 63, -0x8000000000000000, -500000, 0);
    case k == 62 => LateDelay(k, machine, 125, 0x0, 0, 0);
  }

  // A default delay, given how often each product wraps and what is left.
  lemma LateDelay(k: nat, machine: nat -> Int64, turns: int, ms: Int64, turnsNs: int, ns: Int64)
    requires k < 63 && 500 * Pow2(k) == TWO_TO_64 * turns + ms
    requires NS_PER_MS * Min(ms, 30000) == TWO_TO_64 * turnsNs + ns
    ensures DelayNs(DEFAULT_BACKOFF, k, machine) == ns
  {
    WrapIs(500 * Pow2(k), turns, ms);
    WrapIs(NS_PER_MS * Min(ms, 30000), turnsNs, ns);
    hide Wrap;
  }
}
