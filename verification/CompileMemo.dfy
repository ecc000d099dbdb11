/**
 * The once-per-kind memo of compiled card schemas, under any interleaving of callers.
 * `Raw` is a schema document and `R` what compiling gives: a schema or an error.
 */
module CompileMemo {

  datatype Once = NotRun | RunBy(caller: nat) | Done

  // The memo of one kind.  `inputs` are the documents that compileUncached was run on for
  // it, in order; the code does not keep them.
  datatype Memo<Raw, R> = Memo(once: Once, result: R, inputs: seq<Raw>)

  datatype Phase<R> =
    | Arrived
    | Inside                 // running the once's function
    | Passed                 // past the once
    | Returned(result: R)

  datatype Caller<Raw, R> = Caller(kind: string, raw: Raw, phase: Phase<R>)

  datatype State<Raw, R> = State(memos: map<string, Memo<Raw, R>>, callers: seq<Caller<Raw, R>>)

  // At start-up: a memo for every kind that has a schema, holding nothing.
  function Start<Raw, R>(kinds: set<string>, zero: R): State<Raw, R> {
    State(map k | k in kinds :: Memo(NotRun, zero, []), [])
  }

  datatype Step<Raw> =
    | Call(kind: string, raw: Raw)
    | CompileDirectly(caller: nat)   // a kind without a memo
    | EnterOnce(caller: nat)
    | CompileInside(caller: nat)
    | PassOnce(caller: nat)
    | Return(caller: nat)

  predicate CallerIs<Raw, R(==)>(s: State<Raw, R>, i: nat, phase: Phase<R>, known: bool) {
    i < |s.callers| && s.callers[i].phase == phase && (s.callers[i].kind in s.memos) == known
  }

  predicate Enabled<Raw, R(==)>(s: State<Raw, R>, step: Step<Raw>) {
    match step
    case Call(_, _) => true
    case CompileDirectly(i) => CallerIs(s, i, Arrived, false)
    case EnterOnce(i) => CallerIs(s, i, Arrived, true) && s.memos[s.callers[i].kind].once == NotRun
    case CompileInside(i) => CallerIs(s, i, Inside, true)
    case PassOnce(i) => CallerIs(s, i, Arrived, true) && s.memos[s.callers[i].kind].once == Done
    case Return(i) => CallerIs(s, i, Passed, true)
  }

  function Move<Raw, R>(s: State<Raw, R>, i: nat, phase: Phase<R>): State<Raw, R>
    requires i < |s.callers|
  {
    s.(callers := s.callers[i := s.callers[i].(phase := phase)])
  }

  function After<Raw, R(==)>(uncached: (string, Raw) -> R, s: State<Raw, R>, step: Step<Raw>): State<Raw, R>
    requires Enabled(s, step)
  {
    match step
    case Call(kind, raw) => s.(callers := s.callers + [Caller(kind, raw, Arrived)])
    case CompileDirectly(i) =>
      Move(s, i, Returned(uncached(s.callers[i].kind, s.callers[i].raw)))
    case EnterOnce(i) =>
      var kind := s.callers[i].kind;
      Move(s.(memos := s.memos[kind := s.memos[kind].(once := RunBy(i))]), i, Inside)
    case CompileInside(i) =>
      var kind, raw := s.callers[i].kind, s.callers[i].raw;
      Move(s.(memos := s.memos[kind := Memo(Done, uncached(kind, raw), s.memos[kind].inputs + [raw])]), i, Passed)
    case PassOnce(i) => Move(s, i, Passed)
    case Return(i) => Move(s, i, Returned(s.memos[s.callers[i].kind].result))
  }

  predicate Run<Raw, R(==)>(uncached: (string, Raw) -> R, s: State<Raw, R>, steps: seq<Step<Raw>>)
    decreases |steps|
  {
    |steps| > 0 ==> Enabled(s, steps[0]) && Run(uncached, After(uncached, s, steps[0]), steps[1..])
  }

  function End<Raw, R(==)>(uncached: (string, Raw) -> R, s: State<Raw, R>, steps: seq<Step<Raw>>): State<Raw, R>
    requires Run(uncached, s, steps)
    decreases |steps|
  {
    if |steps| == 0 then s else End(uncached, After(uncached, s, steps[0]), steps[1..])
  }

  ghost predicate MemoInv<Raw, R>(uncached: (string, Raw) -> R, s: State<Raw, R>, kind: string)
    requires kind in s.memos
  {
    var m := s.memos[kind];
    && (m.once == Done ==> |m.inputs| == 1 && m.result == uncached(kind, m.inputs[0]))
    && (m.once != Done ==> m.inputs == [])
    && (m.once.RunBy? ==> m.once.caller < |s.callers| && s.callers[m.once.caller].kind == kind
                          && s.callers[m.once.caller].phase == Inside)
    && (forall raw :: raw in m.inputs ==>
          exists i :: 0 <= i < |s.callers| && s.callers[i].kind == kind && s.callers[i].raw == raw)
  }

  ghost predicate CallerInv<Raw, R>(uncached: (string, Raw) -> R, s: State<Raw, R>, i: nat)
    requires i < |s.callers|
  {
    var c := s.callers[i];
    match c.phase
    case Arrived => true
    case Inside => c.kind in s.memos && s.memos[c.kind].once == RunBy(i)
    case Passed => c.kind in s.memos && s.memos[c.kind].once == Done
    case Returned(r) =>
      if c.kind in s.memos then s.memos[c.kind].once == Done && r == s.memos[c.kind].result
      else r == uncached(c.kind, c.raw)
  }

  ghost predicate Inv<Raw, R>(uncached: (string, Raw) -> R, s: State<Raw, R>) {
    && (forall kind :: kind in s.memos ==> MemoInv(uncached, s, kind))
    && (forall i :: 0 <= i < |s.callers| ==> CallerInv(uncached, s, i))
  }

  lemma StepKeepsInv<Raw, R>(uncached: (string, Raw) -> R, s: State<Raw, R>, step: Step<Raw>)
    requires Inv(uncached, s) && Enabled(s, step)
    ensures Inv(uncached, After(uncached, s, step))
    ensures After(uncached, s, step).memos.Keys == s.memos.Keys
  {
    var s' := After(uncached, s, step);
    assert |s.callers| <= |s'.callers|;
    assert forall i :: 0 <= i < |s.callers| ==>
      s'.callers[i].kind == s.callers[i].kind && s'.callers[i].raw == s.callers[i].raw;
    forall kind | kind in s'.memos
      ensures MemoInv(uncached, s', kind)
    {
      assert MemoInv(uncached, s, kind);
      if step.CompileInside? {
        assert CallerInv(uncached, s, step.caller);
      }
    }
    forall i | 0 <= i < |s'.callers|
      ensures CallerInv(uncached, s', i)
    {
      if i < |s.callers| {
        assert CallerInv(uncached, s, i);
        if step.CompileInside? {
          assert CallerInv(uncached, s, step.caller);
        }
      }
    }
  }

  lemma {:induction false} RunKeepsInv<Raw, R>(uncached: (string, Raw) -> R, s: State<Raw, R>, steps: seq<Step<Raw>>)
    requires Inv(uncached, s) && Run(uncached, s, steps)
    ensures Inv(uncached, End(uncached, s, steps)) && End(uncached, s, steps).memos.Keys == s.memos.Keys
    decreases |steps|
  {
    if |steps| > 0 {
      StepKeepsInv(uncached, s, steps[0]);
      RunKeepsInv(uncached, After(uncached, s, steps[0]), steps[1..]);
    }
  }

  // Over every interleaving: each kind is compiled at most once, and whoever returns has
  // what compiling would have given -- from the document of the caller that compiled,
  // and so from its own when the callers of its kind pass the same one.
  lemma MemoAgrees<Raw, R>(uncached: (string, Raw) -> R, kinds: set<string>, zero: R, steps: seq<Step<Raw>>, i: nat)
    requires Run(uncached, Start(kinds, zero), steps)
    requires var s := End(uncached, Start(kinds, zero), steps); i < |s.callers| && s.callers[i].phase.Returned?
    ensures var s := End(uncached, Start(kinds, zero), steps);
            var c := s.callers[i];
            && (forall kind :: kind in kinds ==> kind in s.memos && |s.memos[kind].inputs| <= 1)
            && (c.kind in kinds ==>
                  && |s.memos[c.kind].inputs| == 1
                  && c.phase.result == uncached(c.kind, s.memos[c.kind].inputs[0]))
            && (c.kind !in kinds ==> c.phase.result == uncached(c.kind, c.raw))
            && ((forall j :: 0 <= j < |s.callers| && s.callers[j].kind == c.kind ==> s.callers[j].raw == c.raw)
                ==> c.phase.result == uncached(c.kind, c.raw))
  {
    RunKeepsInv(uncached, Start(kinds, zero), steps);
    var s := End(uncached, Start(kinds, zero), steps);
    var c := s.callers[i];
    assert CallerInv(uncached, s, i);
    forall kind | kind in kinds
      ensures kind in s.memos && |s.memos[kind].inputs| <= 1
    {
      assert kind in s.memos.Keys;
      assert MemoInv(uncached, s, kind);
    }
    if c.kind in s.memos {
      assert c.kind in s.memos.Keys;
      assert MemoInv(uncached, s, c.kind);
      assert s.memos[c.kind].inputs[0] in s.memos[c.kind].inputs;
    }
  }

  // --- Callers come back --------------------------------------------------------------

  function Rank<R>(phase: Phase<R>): nat {
    match phase
    case Arrived => 3
    case Inside => 2
    case Passed => 1
    case Returned(_) => 0
  }

  function Ranks<Raw, R>(callers: seq<Caller<Raw, R>>): nat {
    if |callers| == 0 then 0 else Rank(callers[0].phase) + Ranks(callers[1..])
  }

  lemma {:induction false} RanksUpdate<Raw, R>(callers: seq<Caller<Raw, R>>, i: nat, c: Caller<Raw, R>)
    requires i < |callers|
    ensures Ranks(callers[i := c]) + Rank(callers[i].phase) == Ranks(callers) + Rank(c.phase)
  {
    if i > 0 {
      RanksUpdate(callers[1..], i - 1, c);
      assert callers[i := c][1..] == callers[1..][i - 1 := c];
    } else {
      assert callers[i := c][1..] == callers[1..];
    }
  }

  lemma {:induction false} RanksSnoc<Raw, R>(callers: seq<Caller<Raw, R>>, c: Caller<Raw, R>)
    ensures Ranks(callers + [c]) == Ranks(callers) + Rank(c.phase)
  {
    if |callers| == 0 {
      assert callers + [c] == [c];
    } else {
      RanksSnoc(callers[1..], c);
      assert (callers + [c])[1..] == callers[1..] + [c];
    }
  }

  function Calls<Raw>(steps: seq<Step<Raw>>): nat {
    if |steps| == 0 then 0 else (if steps[0].Call? then 1 else 0) + Calls(steps[1..])
  }

  lemma StepWorks<Raw, R>(uncached: (string, Raw) -> R, s: State<Raw, R>, step: Step<Raw>)
    requires Enabled(s, step)
    ensures Ranks(After(uncached, s, step).callers) + (if step.Call? then 0 else 1) <=
            Ranks(s.callers) + (if step.Call? then 3 else 0)
  {
    var s' := After(uncached, s, step);
    hide Ranks;
    if step.Call? {
      RanksSnoc(s.callers, Caller(step.kind, step.raw, Arrived));
    } else {
      RanksUpdate(s.callers, step.caller, s'.callers[step.caller]);
    }
  }

  // Every schedule makes progress: a run takes at most three more steps a call.
  lemma {:induction false} RunsAreBounded<Raw, R>(uncached: (string, Raw) -> R, s: State<Raw, R>, steps: seq<Step<Raw>>)
    requires Run(uncached, s, steps)
    ensures |steps| - Calls(steps) + Ranks(End(uncached, s, steps).callers) <= Ranks(s.callers) + 3 * Calls(steps)
    decreases |steps|
  {
    if |steps| > 0 {
      StepWorks(uncached, s, steps[0]);
      RunsAreBounded(uncached, After(uncached, s, steps[0]), steps[1..]);
    }
  }

  // A caller that has not returned can go on, or someone is inside the once and can.
  lemma SomeoneGoesOn<Raw, R>(uncached: (string, Raw) -> R, s: State<Raw, R>, i: nat) returns (step: Step<Raw>)
    requires Inv(uncached, s) && i < |s.callers| && !s.callers[i].phase.Returned?
    ensures Enabled(s, step) && !step.Call?
  {
    var c := s.callers[i];
    assert CallerInv(uncached, s, i);
    match c.phase
    case Arrived =>
      if c.kind in s.memos {
        assert MemoInv(uncached, s, c.kind);
        match s.memos[c.kind].once
        case NotRun => step := EnterOnce(i);
        case RunBy(j) => step := CompileInside(j);
        case Done => step := PassOnce(i);
      } else {
        step := CompileDirectly(i);
      }
    case Inside => step := CompileInside(i);
    case Passed => step := Return(i);
  }

  // So when nothing but new calls can happen, every caller has returned: none is stuck before
  // the once, whoever is inside, or in it.
  lemma RestHasReturned<Raw, R>(uncached: (string, Raw) -> R, s: State<Raw, R>)
    requires Inv(uncached, s)
    requires forall step :: Enabled(s, step) ==> step.Call?
    ensures forall c <- s.callers :: c.phase.Returned?
  {
    forall i | 0 <= i < |s.callers|
      ensures s.callers[i].phase.Returned?
    {
      if !s.callers[i].phase.Returned? {
        var step := SomeoneGoesOn(uncached, s, i);
      }
    }
  }
}
