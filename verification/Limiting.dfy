/**
 * The goroutine limiter as the steps that its callers, workers and closers interleave: a
 * buffered channel of tokens, a channel that is closed once, and the drain that closing
 * runs.  A run is any sequence of enabled steps; the scheduler, the selects and the
 * contexts are whatever the sequence says.
 */
module Limiting {

  // How far the goroutine has come that a call of Go starts.
  datatype Fn =
    | Waiting      // function not begun
    | Running
    | Finished     // function returned, token not taken back
    | Released

  // How far one call of Go has come; once its goroutine is started the two go on on their
  // own, and the call may return at any time.
  datatype Call =
    | Entered      // called, context not looked at
    | Selecting    // in the select
    | Acquired     // token sent, goroutine not started
    | Started(fn: Fn, returned: bool)   // returned true, or about to
    | Refused      // returned false

  // How far one call of Close has come.
  datatype Closer = Arrived | Owner | Returned

  // The once: the closer that runs its function, or that it has run.
  datatype Once = Unused | Busy(owner: nat) | Done

  datatype Limiter = Limiter(
    cap: nat,
    tokens: nat,        // what the limit channel holds
    closed: bool,       // the closed channel is closed
    filled: nat,        // tokens that the drain has sent
    once: Once,
    calls: seq<Call>,
    closers: seq<Closer>)

  function New(n: nat): Limiter {
    Limiter(n, 0, false, 0, Unused, [], [])
  }

  datatype Step =
    | Go
    | CheckContext(call: nat, dead: bool)
    | SendToken(call: nat)
    | SeeClosed(call: nat)
    | SeeContextDone(call: nat)
    | Spawn(call: nat)
    | ReturnTrue(call: nat)
    | Begin(call: nat)
    | Finish(call: nat)
    | TakeToken(call: nat)
    | Close
    | EnterOnce(closer: nat)
    | CloseChannel(closer: nat)
    | Fill(closer: nat)
    | LeaveOnce(closer: nat)
    | SkipOnce(closer: nat)

  predicate CallAt(s: Limiter, i: nat, c: Call) {
    i < |s.calls| && s.calls[i] == c
  }

  predicate FnAt(s: Limiter, i: nat, fn: Fn) {
    i < |s.calls| && s.calls[i].Started? && s.calls[i].fn == fn
  }

  predicate Enabled(s: Limiter, step: Step) {
    match step
    case Go => true
    case CheckContext(i, _) => CallAt(s, i, Entered)
    case SendToken(i) => CallAt(s, i, Selecting) && s.tokens < s.cap
    case SeeClosed(i) => CallAt(s, i, Selecting) && s.closed
    case SeeContextDone(i) => CallAt(s, i, Selecting)
    case Spawn(i) => CallAt(s, i, Acquired)
    case ReturnTrue(i) => i < |s.calls| && s.calls[i].Started? && !s.calls[i].returned
    case Begin(i) => FnAt(s, i, Waiting)
    case Finish(i) => FnAt(s, i, Running)
    case TakeToken(i) => FnAt(s, i, Finished) && s.tokens > 0
    case Close => true
    case EnterOnce(j) => j < |s.closers| && s.closers[j] == Arrived && s.once == Unused
    case CloseChannel(j) => s.once == Busy(j) && !s.closed
    case Fill(j) => s.once == Busy(j) && s.closed && s.filled < s.cap && s.tokens < s.cap
    case LeaveOnce(j) => s.once == Busy(j) && s.closed && s.filled >= s.cap && j < |s.closers|
    case SkipOnce(j) => j < |s.closers| && s.closers[j] == Arrived && s.once == Done
  }

  function After(s: Limiter, step: Step): Limiter
    requires Enabled(s, step)
  {
    match step
    case Go => s.(calls := s.calls + [Entered])
    case CheckContext(i, dead) => s.(calls := s.calls[i := if dead then Refused else Selecting])
    case SendToken(i) => s.(calls := s.calls[i := Acquired], tokens := s.tokens + 1)
    case SeeClosed(i) => s.(calls := s.calls[i := Refused])
    case SeeContextDone(i) => s.(calls := s.calls[i := Refused])
    case Spawn(i) => s.(calls := s.calls[i := Started(Waiting, false)])
    case ReturnTrue(i) => s.(calls := s.calls[i := s.calls[i].(returned := true)])
    case Begin(i) => s.(calls := s.calls[i := s.calls[i].(fn := Running)])
    case Finish(i) => s.(calls := s.calls[i := s.calls[i].(fn := Finished)])
    case TakeToken(i) => s.(calls := s.calls[i := s.calls[i].(fn := Released)], tokens := s.tokens - 1)
    case Close => s.(closers := s.closers + [Arrived])
    case EnterOnce(j) => s.(closers := s.closers[j := Owner], once := Busy(j))
    case CloseChannel(_) => s.(closed := true)
    case Fill(_) => s.(tokens := s.tokens + 1, filled := s.filled + 1)
    case LeaveOnce(j) => s.(closers := s.closers[j := Returned], once := Done)
    case SkipOnce(j) => s.(closers := s.closers[j := Returned])
  }

  // A run from s, and where it ends.
  predicate Run(s: Limiter, steps: seq<Step>)
    decreases |steps|
  {
    |steps| > 0 ==> Enabled(s, steps[0]) && Run(After(s, steps[0]), steps[1..])
  }

  function End(s: Limiter, steps: seq<Step>): Limiter
    requires Run(s, steps)
    decreases |steps|
  {
    if |steps| == 0 then s else End(After(s, steps[0]), steps[1..])
  }

  lemma RunCons(s: Limiter, step: Step, rest: seq<Step>)
    requires Enabled(s, step) && Run(After(s, step), rest)
    ensures Run(s, [step] + rest) && End(s, [step] + rest) == End(After(s, step), rest)
  {
    assert ([step] + rest)[1..] == rest;
  }

  // A step before a run.
  lemma Then(s: Limiter, step: Step, rest: seq<Step>) returns (steps: seq<Step>)
    requires Enabled(s, step) && (rest == [] || Run(After(s, step), rest))
    ensures Run(s, steps)
    ensures End(s, steps) == if rest == [] then After(s, step) else End(After(s, step), rest)
  {
    RunCons(s, step, rest);
    steps := [step] + rest;
  }

  lemma {:induction false} RunAppend(s: Limiter, a: seq<Step>, b: seq<Step>)
    requires Run(s, a) && Run(End(s, a), b)
    ensures Run(s, a + b) && End(s, a + b) == End(End(s, a), b)
    decreases |a|
  {
    if |a| == 0 {
      assert a + b == b;
    } else {
      RunAppend(After(s, a[0]), a[1..], b);
      assert (a + b)[1..] == a[1..] + b;
    }
  }

  // --- Counting -----------------------------------------------------------------------

  // Between sending its token and taking it back.
  predicate Holds(c: Call) {
    c == Acquired || (c.Started? && c.fn != Released)
  }

  function Holding(calls: seq<Call>): nat {
    if |calls| == 0 then 0 else (if Holds(calls[0]) then 1 else 0) + Holding(calls[1..])
  }

  predicate Runs(c: Call) {
    c.Started? && c.fn == Running
  }

  function RunningNow(calls: seq<Call>): nat {
    if |calls| == 0 then 0 else (if Runs(calls[0]) then 1 else 0) + RunningNow(calls[1..])
  }

  lemma {:induction false} HoldingUpdate(calls: seq<Call>, i: nat, c: Call)
    requires i < |calls|
    ensures Holding(calls[i := c]) + (if Holds(calls[i]) then 1 else 0) == Holding(calls) + (if Holds(c) then 1 else 0)
  {
    if i > 0 {
      HoldingUpdate(calls[1..], i - 1, c);
      assert calls[i := c][1..] == calls[1..][i - 1 := c];
    } else {
      assert calls[i := c][1..] == calls[1..];
    }
  }

  lemma {:induction false} HoldingSnoc(calls: seq<Call>, c: Call)
    ensures Holding(calls + [c]) == Holding(calls) + (if Holds(c) then 1 else 0)
  {
    if |calls| == 0 {
      assert calls + [c] == [c];
    } else {
      HoldingSnoc(calls[1..], c);
      assert (calls + [c])[1..] == calls[1..] + [c];
    }
  }

  lemma {:induction false} HoldingCounts(calls: seq<Call>)
    ensures RunningNow(calls) <= Holding(calls)
    ensures Holding(calls) == 0 <==> forall i :: 0 <= i < |calls| ==> !Holds(calls[i])
  {
    if |calls| > 0 {
      HoldingCounts(calls[1..]);
      assert forall i :: 0 <= i < |calls| - 1 ==> calls[1..][i] == calls[i + 1];
      if Holding(calls) == 0 {
        forall i | 0 <= i < |calls| ensures !Holds(calls[i]) {
          assert i == 0 || calls[i] == calls[1..][i - 1];
        }
      }
    }
  }

  // --- Safety -------------------------------------------------------------------------

  ghost predicate Inv(s: Limiter) {
    && s.tokens == Holding(s.calls) + s.filled
    && s.tokens <= s.cap
    && (s.once == Unused ==> !s.closed && s.filled == 0)
    && (s.once.Busy? ==>
          && s.once.owner < |s.closers| && s.closers[s.once.owner] == Owner
          && (!s.closed ==> s.filled == 0))
    && (s.once == Done ==> s.closed && s.filled == s.cap)
    && (forall j :: 0 <= j < |s.closers| ==>
          && (s.closers[j] == Owner ==> s.once == Busy(j))
          && (s.closers[j] == Returned ==> s.once == Done))
  }

  lemma StepKeepsInv(s: Limiter, step: Step)
    requires Inv(s) && Enabled(s, step)
    ensures Inv(After(s, step))
  {
    hide Holding;
    match step
    case Go => HoldingSnoc(s.calls, Entered);
    case CheckContext(i, dead) => HoldingUpdate(s.calls, i, if dead then Refused else Selecting);
    case SendToken(i) => HoldingUpdate(s.calls, i, Acquired);
    case SeeClosed(i) => HoldingUpdate(s.calls, i, Refused);
    case SeeContextDone(i) => HoldingUpdate(s.calls, i, Refused);
    case Spawn(i) => HoldingUpdate(s.calls, i, Started(Waiting, false));
    case ReturnTrue(i) => HoldingUpdate(s.calls, i, s.calls[i].(returned := true));
    case Begin(i) => HoldingUpdate(s.calls, i, s.calls[i].(fn := Running));
    case Finish(i) => HoldingUpdate(s.calls, i, s.calls[i].(fn := Finished));
    case TakeToken(i) => HoldingUpdate(s.calls, i, s.calls[i].(fn := Released));
    case _ =>
  }

  lemma {:induction false} RunKeepsInv(s: Limiter, steps: seq<Step>)
    requires Inv(s) && Run(s, steps)
    ensures Inv(End(s, steps))
    decreases |steps|
  {
    if |steps| > 0 {
      StepKeepsInv(s, steps[0]);
      RunKeepsInv(After(s, steps[0]), steps[1..]);
    }
  }

  // In every state of every run: the channel holds one token for each function between
  // its acquisition and its release and one for each slot that closing has filled; at
  // most n functions run; and once any Close has returned, none does.
  lemma Limits(n: nat, steps: seq<Step>)
    requires Run(New(n), steps)
    ensures var s := End(New(n), steps);
            && s.tokens == Holding(s.calls) + s.filled <= n
            && RunningNow(s.calls) <= n
            && ((exists j :: 0 <= j < |s.closers| && s.closers[j] == Returned) ==> Holding(s.calls) == 0)
  {
    RunKeepsInv(New(n), steps);
    CapKept(New(n), steps);
    HoldingCounts(End(New(n), steps).calls);
  }

  lemma {:induction false} CapKept(s: Limiter, steps: seq<Step>)
    requires Run(s, steps)
    ensures End(s, steps).cap == s.cap
    decreases |steps|
  {
    if |steps| > 0 {
      CapKept(After(s, steps[0]), steps[1..]);
    }
  }

  // --- After Close has returned -------------------------------------------------------

  // A call that has sent no token: it has not returned yet, or it returned false.
  predicate Unstarted(c: Call) {
    c == Entered || c == Selecting || c == Refused
  }

  // The calls of s' against those of s, when nothing more may start.
  ghost predicate NothingStarted(s: Limiter, s': Limiter) {
    && s'.once == Done
    && |s.calls| <= |s'.calls|
    && (forall i :: 0 <= i < |s'.calls| ==>
          if i < |s.calls| && s.calls[i].Started? then
            && s'.calls[i].Started? && s'.calls[i].fn == Released
            && (s.calls[i].returned ==> s'.calls[i].returned)
          else Unstarted(s'.calls[i]))
  }

  // From any moment after a Close has returned, whatever happens next, no function ever
  // starts or runs again: those that had been started are released, and every Go that had
  // not sent its token, or is made later, returns false if it completes.
  lemma {:induction false} ClosedForGood(s: Limiter, steps: seq<Step>)
    requires Inv(s) && Run(s, steps)
    requires exists j :: 0 <= j < |s.closers| && s.closers[j] == Returned
    ensures NothingStarted(s, End(s, steps))
  {
    HoldingCounts(s.calls);
    StillNothing(s, s, steps);
  }

  lemma {:induction false} StillNothing(start: Limiter, s: Limiter, steps: seq<Step>)
    requires Inv(s) && Run(s, steps) && NothingStarted(start, s)
    ensures NothingStarted(start, End(s, steps))
    decreases |steps|
  {
    if |steps| > 0 {
      var s' := After(s, steps[0]);
      StepKeepsInv(s, steps[0]);
      HoldingCounts(s.calls);
      assert !steps[0].SendToken?;
      assert NothingStarted(start, s');
      StillNothing(start, s', steps[1..]);
    }
  }

  // A Go can return true even after Close has returned: exactly when it had started its
  // function, which by then is released, so that only its return was outstanding, if that.
  ghost predicate CanReturnTrue(s: Limiter, i: nat) {
    exists steps :: Run(s, steps) && ReturnedTrue(End(s, steps), i)
  }

  predicate ReturnedTrue(s: Limiter, i: nat) {
    i < |s.calls| && s.calls[i].Started? && s.calls[i].returned
  }

  lemma LateReturn(s: Limiter, i: nat)
    requires Inv(s) && exists j :: 0 <= j < |s.closers| && s.closers[j] == Returned
    ensures CanReturnTrue(s, i) <==> i < |s.calls| && s.calls[i].Started? && s.calls[i].fn == Released
  {
    HoldingCounts(s.calls);
    if i < |s.calls| && s.calls[i].Started? {
      assert !Holds(s.calls[i]);
      if s.calls[i].returned {
        assert Run(s, []) && ReturnedTrue(End(s, []), i);
      } else {
        RunCons(s, ReturnTrue(i), []);
        assert ReturnedTrue(End(s, [ReturnTrue(i)] + []), i);
      }
    } else if CanReturnTrue(s, i) {
      var steps :| Run(s, steps) && ReturnedTrue(End(s, steps), i);
      ClosedForGood(s, steps);
      assert false;
    }
  }

  // Such a state is reached: the function is through before the call that started it
  // returns, and Close gets in between.
  lemma LateReturnHappens()
    ensures exists steps :: Run(New(1), steps) && LateReturnAhead(End(New(1), steps))
  {
    var through := Limiter(1, 0, false, 0, Unused, [Started(Released, false)], []);
    var first := RunsThrough();
    var second := ClosesBehind();
    RunAppend(New(1), first, second);
    assert LateReturnAhead(End(through, second));
  }

  predicate LateReturnAhead(s: Limiter) {
    s.closers == [Returned] && s.calls == [Started(Released, false)]
  }

  lemma RunsThrough() returns (steps: seq<Step>)
    ensures Run(New(1), steps) && End(New(1), steps) == Limiter(1, 0, false, 0, Unused, [Started(Released, false)], [])
  {
    var s1 := After(New(1), Go);
    var s2 := After(s1, CheckContext(0, false));
    var s3 := After(s2, SendToken(0));
    var s4 := After(s3, Spawn(0));
    var s5 := After(s4, Begin(0));
    var s6 := After(s5, Finish(0));
    hide Run, End;
    steps := Then(s6, TakeToken(0), []);
    steps := Then(s5, Finish(0), steps);
    steps := Then(s4, Begin(0), steps);
    steps := Then(s3, Spawn(0), steps);
    steps := Then(s2, SendToken(0), steps);
    steps := Then(s1, CheckContext(0, false), steps);
    steps := Then(New(1), Go, steps);
  }

  lemma ClosesBehind() returns (steps: seq<Step>)
    ensures var s := Limiter(1, 0, false, 0, Unused, [Started(Released, false)], []);
            Run(s, steps) && LateReturnAhead(End(s, steps))
  {
    var s := Limiter(1, 0, false, 0, Unused, [Started(Released, false)], []);
    var s1 := After(s, Close);
    var s2 := After(s1, EnterOnce(0));
    var s3 := After(s2, CloseChannel(0));
    var s4 := After(s3, Fill(0));
    hide Run, End;
    steps := Then(s4, LeaveOnce(0), []);
    steps := Then(s3, Fill(0), steps);
    steps := Then(s2, CloseChannel(0), steps);
    steps := Then(s1, EnterOnce(0), steps);
    steps := Then(s, Close, steps);
  }

  // --- Before it has ------------------------------------------------------------------

  // Closing the channel is not the end of it: a new call can still have its function
  // started exactly while the drain has a slot to fill.
  ghost predicate CanStillStart(s: Limiter) {
    exists steps :: Run(s, steps) && StartsNew(s, End(s, steps))
  }

  // Some call made after s has its function running.
  ghost predicate StartsNew(s: Limiter, s': Limiter) {
    exists i :: |s.calls| <= i < |s'.calls| && Runs(s'.calls[i])
  }

  lemma {:induction false} FullStaysFull(s: Limiter, s': Limiter, steps: seq<Step>)
    requires Inv(s') && s'.closed && s'.filled == s'.cap && Run(s', steps)
    requires |s.calls| <= |s'.calls|
    requires forall i :: |s.calls| <= i < |s'.calls| ==> Unstarted(s'.calls[i])
    ensures !StartsNew(s, End(s', steps))
    decreases |steps|
  {
    if |steps| > 0 {
      HoldingCounts(s'.calls);
      StepKeepsInv(s', steps[0]);
      FullStaysFull(s, After(s', steps[0]), steps[1..]);
    }
  }

  lemma {:induction false} FindHolder(calls: seq<Call>) returns (i: nat)
    requires Holding(calls) > 0
    ensures i < |calls| && Holds(calls[i])
  {
    if Holds(calls[0]) {
      i := 0;
    } else {
      var j := FindHolder(calls[1..]);
      i := j + 1;
    }
  }

  // The next step of a call that holds a token.
  function Onward(c: Call, i: nat): Step
    requires Holds(c)
  {
    match c
    case Acquired => Spawn(i)
    case Started(Waiting, _) => Begin(i)
    case Started(Running, _) => Finish(i)
    case _ => TakeToken(i)
  }

  function FnRank(fn: Fn): nat {
    match fn
    case Waiting => 3
    case Running => 2
    case Finished => 1
    case Released => 0
  }

  function Rank(c: Call): nat {
    match c
    case Entered => 7
    case Selecting => 6
    case Acquired => 5
    case Started(fn, returned) => FnRank(fn) + if returned then 0 else 1
    case Refused => 0
  }

  // A holder can be let run to its release.
  lemma {:induction false} LetRelease(s: Limiter, i: nat) returns (steps: seq<Step>)
    requires Inv(s) && i < |s.calls| && Holds(s.calls[i])
    ensures Run(s, steps)
    ensures var e := End(s, steps);
            Inv(e) && e.tokens < s.cap && |e.calls| == |s.calls| && e.cap == s.cap && e.closed == s.closed
    decreases Rank(s.calls[i])
  {
    var step := Onward(s.calls[i], i);
    HoldingUpdate(s.calls, i, Refused);
    StepKeepsInv(s, step);
    var rest := [];
    if !FnAt(s, i, Finished) {
      rest := LetRelease(After(s, step), i);
    }
    RunCons(s, step, rest);
    steps := [step] + rest;
  }

  // A call in the select, with a slot free, can go on to have its function running.
  lemma LetRun(s: Limiter, i: nat) returns (steps: seq<Step>)
    requires s.tokens < s.cap && CallAt(s, i, Selecting)
    ensures Run(s, steps)
    ensures End(s, steps) == s.(calls := s.calls[i := Started(Running, false)], tokens := s.tokens + 1)
  {
    var s1 := After(s, SendToken(i));
    var s2 := After(s1, Spawn(i));
    assert After(s2, Begin(i)).calls == s.calls[i := Started(Running, false)];
    hide Run, End;
    steps := Then(s2, Begin(i), []);
    steps := Then(s1, Spawn(i), steps);
    steps := Then(s, SendToken(i), steps);
  }

  // And so can a call made now.
  lemma LetStart(s: Limiter) returns (steps: seq<Step>)
    requires s.tokens < s.cap
    ensures Run(s, steps)
    ensures End(s, steps) == s.(calls := s.calls + [Started(Running, false)], tokens := s.tokens + 1)
  {
    var i := |s.calls|;
    var s1 := After(s, Go);
    var s2 := After(s1, CheckContext(i, false));
    var more := LetRun(s2, i);
    assert s2.calls[i := Started(Running, false)] == s.calls + [Started(Running, false)];
    RunCons(s1, CheckContext(i, false), more);
    RunCons(s, Go, [CheckContext(i, false)] + more);
    steps := [Go] + ([CheckContext(i, false)] + more);
  }

  lemma LateStart(s: Limiter)
    requires Inv(s) && s.closed
    ensures CanStillStart(s) <==> s.filled < s.cap
  {
    if s.filled < s.cap {
      var steps := [];
      if s.tokens == s.cap {
        var i := FindHolder(s.calls);
        steps := LetRelease(s, i);
      }
      var m := End(s, steps);
      var more := LetStart(m);
      RunAppend(s, steps, more);
      assert Runs(End(s, steps + more).calls[|s.calls|]);
    } else if CanStillStart(s) {
      var steps :| Run(s, steps) && StartsNew(s, End(s, steps));
      FullStaysFull(s, s, steps);
      assert false;
    }
  }

  // --- Every slot is of use -----------------------------------------------------------

  // Until the limiter is closed, a call that is selecting can go on to run whenever fewer
  // than n functions are between acquisition and release.
  lemma SelectingCanRun(n: nat, steps: seq<Step>, i: nat)
    requires Run(New(n), steps)
    requires var s := End(New(n), steps); !s.closed && Holding(s.calls) < n && CallAt(s, i, Selecting)
    ensures var s := End(New(n), steps);
            exists more :: Run(s, more) && FnAt(End(s, more), i, Running)
  {
    var s := End(New(n), steps);
    RunKeepsInv(New(n), steps);
    CapKept(New(n), steps);
    var more := LetRun(s, i);
    assert FnAt(End(s, more), i, Running);
  }

  lemma {:induction false} ManyRun(n: nat, m: nat) returns (steps: seq<Step>)
    requires m <= n
    ensures Run(New(n), steps)
    ensures End(New(n), steps) == New(n).(calls := seq(m, i => Started(Running, false)), tokens := m)
  {
    if m == 0 {
      steps := [];
    } else {
      var fewer := ManyRun(n, m - 1);
      var s := End(New(n), fewer);
      var more := LetStart(s);
      RunAppend(New(n), fewer, more);
      assert s.calls + [Started(Running, false)] == seq(m, i => Started(Running, false));
      steps := fewer + more;
    }
  }

  lemma {:induction false} AllRunning(calls: seq<Call>)
    requires forall c <- calls :: Runs(c)
    ensures RunningNow(calls) == |calls|
  {
    if |calls| > 0 {
      AllRunning(calls[1..]);
    }
  }

  // For every n there is a run in which n functions run at once.
  lemma LimitIsReached(n: nat)
    ensures exists steps :: Run(New(n), steps) && RunningNow(End(New(n), steps).calls) == n
  {
    var steps := ManyRun(n, n);
    AllRunning(End(New(n), steps).calls);
  }

  // --- Why a call is refused ----------------------------------------------------------

  // Step k refuses call i: its context was dead, at once or in the select, or the channel had
  // been closed.
  ghost predicate Refuses(closed: bool, steps: seq<Step>, k: nat, i: nat)
    requires k < |steps|
  {
    || steps[k] == CheckContext(i, true)
    || steps[k] == SeeContextDone(i)
    || (steps[k] == SeeClosed(i) && (closed || exists j :: 0 <= j < k && steps[j].CloseChannel?))
  }

  lemma {:induction false} RefusedHasCause(s: Limiter, steps: seq<Step>, i: nat)
    requires Run(s, steps) && CallAt(End(s, steps), i, Refused) && !CallAt(s, i, Refused)
    ensures exists k: nat :: k < |steps| && Refuses(s.closed, steps, k, i)
    decreases |steps|
  {
    var s', rest := After(s, steps[0]), steps[1..];
    if CallAt(s', i, Refused) {
      assert Refuses(s.closed, steps, 0, i);
    } else {
      RefusedHasCause(s', rest, i);
      var k: nat :| k < |rest| && Refuses(s'.closed, rest, k, i);
      if rest[k] == SeeClosed(i) && !s.closed {
        if s'.closed {
          assert steps[0].CloseChannel?;
        } else {
          var j :| 0 <= j < k && rest[j].CloseChannel?;
          assert steps[j + 1].CloseChannel?;
        }
      }
      assert steps[k + 1] == rest[k];
      assert Refuses(s.closed, steps, k + 1, i);
    }
  }

  // And a call whose context was dead when it was looked at is refused for good.
  lemma {:induction false} DeadIsRefused(s: Limiter, steps: seq<Step>, i: nat)
    requires Run(s, steps) && (CallAt(s, i, Refused) || CheckContext(i, true) in steps)
    ensures CallAt(End(s, steps), i, Refused)
    decreases |steps|
  {
    if |steps| > 0 {
      assert steps == [steps[0]] + steps[1..];
      DeadIsRefused(After(s, steps[0]), steps[1..], i);
    }
  }

  // --- The drain ends -----------------------------------------------------------------

  function Ranks(calls: seq<Call>): nat {
    if |calls| == 0 then 0 else Rank(calls[0]) + Ranks(calls[1..])
  }

  function Unreturned(closers: seq<Closer>): nat {
    if |closers| == 0 then 0 else (if closers[0] == Returned then 0 else 1) + Unreturned(closers[1..])
  }

  // What is left to do: of every call, of the slots to fill, of closing.
  function Remaining(s: Limiter): nat {
    Ranks(s.calls) + Unreturned(s.closers)
    + (if s.filled < s.cap then s.cap - s.filled else 0)
    + (if s.once == Unused then 1 else 0) + (if s.closed then 0 else 1)
  }

  lemma {:induction false} RanksUpdate(calls: seq<Call>, i: nat, c: Call)
    requires i < |calls|
    ensures Ranks(calls[i := c]) + Rank(calls[i]) == Ranks(calls) + Rank(c)
  {
    if i > 0 {
      RanksUpdate(calls[1..], i - 1, c);
      assert calls[i := c][1..] == calls[1..][i - 1 := c];
    } else {
      assert calls[i := c][1..] == calls[1..];
    }
  }

  lemma {:induction false} RanksSnoc(calls: seq<Call>, c: Call)
    ensures Ranks(calls + [c]) == Ranks(calls) + Rank(c)
  {
    if |calls| == 0 {
      assert calls + [c] == [c];
    } else {
      RanksSnoc(calls[1..], c);
      assert (calls + [c])[1..] == calls[1..] + [c];
    }
  }

  lemma {:induction false} UnreturnedUpdate(closers: seq<Closer>, j: nat, c: Closer)
    requires j < |closers|
    ensures Unreturned(closers[j := c]) + (if closers[j] == Returned then 0 else 1) ==
            Unreturned(closers) + (if c == Returned then 0 else 1)
  {
    if j > 0 {
      UnreturnedUpdate(closers[1..], j - 1, c);
      assert closers[j := c][1..] == closers[1..][j - 1 := c];
    } else {
      assert closers[j := c][1..] == closers[1..];
    }
  }

  lemma {:induction false} UnreturnedSnoc(closers: seq<Closer>)
    ensures Unreturned(closers + [Arrived]) == Unreturned(closers) + 1
  {
    if |closers| == 0 {
      assert closers + [Arrived] == [Arrived];
    } else {
      UnreturnedSnoc(closers[1..]);
      assert (closers + [Arrived])[1..] == closers[1..] + [Arrived];
    }
  }

  // What a step adds to the work: a call arriving, or a closer.
  function Arrives(step: Step): nat {
    match step
    case Go => 7
    case Close => 1
    case _ => 0
  }

  function Arrivals(steps: seq<Step>): nat {
    if |steps| == 0 then 0 else Arrives(steps[0]) + Arrivals(steps[1..])
  }

  function Worked(steps: seq<Step>): nat {
    if |steps| == 0 then 0 else (if Arrives(steps[0]) == 0 then 1 else 0) + Worked(steps[1..])
  }

  lemma StepWorks(s: Limiter, step: Step)
    requires Inv(s) && Enabled(s, step)
    ensures Remaining(After(s, step)) + (if Arrives(step) == 0 then 1 else 0) <= Remaining(s) + Arrives(step)
  {
    hide Ranks, Unreturned, Holding;
    match step
    case Go => RanksSnoc(s.calls, Entered);
    case CheckContext(i, dead) => RanksUpdate(s.calls, i, if dead then Refused else Selecting);
    case SendToken(i) => RanksUpdate(s.calls, i, Acquired);
    case SeeClosed(i) => RanksUpdate(s.calls, i, Refused);
    case SeeContextDone(i) => RanksUpdate(s.calls, i, Refused);
    case Spawn(i) => RanksUpdate(s.calls, i, Started(Waiting, false));
    case ReturnTrue(i) => RanksUpdate(s.calls, i, s.calls[i].(returned := true));
    case Begin(i) => RanksUpdate(s.calls, i, s.calls[i].(fn := Running));
    case Finish(i) => RanksUpdate(s.calls, i, s.calls[i].(fn := Finished));
    case TakeToken(i) => RanksUpdate(s.calls, i, s.calls[i].(fn := Released));
    case Close => UnreturnedSnoc(s.closers);
    case EnterOnce(j) => UnreturnedUpdate(s.closers, j, Owner);
    case LeaveOnce(j) => UnreturnedUpdate(s.closers, j, Returned);
    case SkipOnce(j) => UnreturnedUpdate(s.closers, j, Returned);
    case _ =>
  }

  // Every schedule makes progress: with finitely many calls of Go and Close, a run can
  // only take a bounded number of other steps, however unfair it is.
  lemma {:induction false} RunsAreBounded(s: Limiter, steps: seq<Step>)
    requires Inv(s) && Run(s, steps)
    ensures Worked(steps) + Remaining(End(s, steps)) <= Remaining(s) + Arrivals(steps)
    decreases |steps|
  {
    if |steps| > 0 {
      StepWorks(s, steps[0]);
      StepKeepsInv(s, steps[0]);
      RunsAreBounded(After(s, steps[0]), steps[1..]);
    }
  }

  // Nothing can happen by itself: neither an arrival nor a context that ends.
  ghost predicate Stuck(s: Limiter) {
    forall step :: Enabled(s, step) ==> Arrives(step) > 0 || step.SeeContextDone?
  }

  ghost predicate Drained(s: Limiter) {
    && s.once == Done
    && (forall j :: 0 <= j < |s.closers| ==> s.closers[j] == Returned)
    && (forall i :: 0 <= i < |s.calls| ==> s.calls[i] == Started(Released, true) || s.calls[i] == Refused)
  }

  lemma OwnerGoesOn(s: Limiter)
    requires Inv(s) && s.once.Busy? && Holding(s.calls) == 0
    ensures var j := s.once.owner; Enabled(s, CloseChannel(j)) || Enabled(s, Fill(j)) || Enabled(s, LeaveOnce(j))
  {
  }

  // And when it stops, closing is over: if Close was ever called, a run that has come to
  // rest has every Close returned, every function finished and its Go returned true, and every
  // other Go refused.
  lemma RestIsDrained(s: Limiter)
    requires Inv(s) && Stuck(s) && |s.closers| > 0
    ensures Drained(s)
  {
    assert Holding(s.calls) == 0 by {
      if Holding(s.calls) > 0 {
        var i := FindHolder(s.calls);
        assert Enabled(s, Onward(s.calls[i], i));
        HoldingUpdate(s.calls, i, Refused);
      }
    }
    assert s.once == Done by {
      match s.once
      case Unused =>
        assert s.closers[0] == Arrived;
        assert Enabled(s, EnterOnce(0));
      case Busy(j) =>
        OwnerGoesOn(s);
      case Done =>
    }
    forall j | 0 <= j < |s.closers| ensures s.closers[j] == Returned {
      assert !Enabled(s, SkipOnce(j));
    }
    HoldingCounts(s.calls);
    forall i | 0 <= i < |s.calls| ensures s.calls[i] == Started(Released, true) || s.calls[i] == Refused {
      assert !Enabled(s, CheckContext(i, true)) && !Enabled(s, SeeClosed(i)) && !Enabled(s, ReturnTrue(i));
    }
  }
}
