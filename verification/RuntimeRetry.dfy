/**
 The one retry on the CPU (src/localwallet/agent/runtime.py:450-478), over every schedule: which constructions one
 call makes, and what becomes of the call and of the kept model after each of them.
 */
module RuntimeRetry {
  import opened Basics
  import opened Runtime

  predicate OnGpuBroke(t: Try) {
    t.Broke? && t.layers != 0
  }

  predicate EndsWorking(tries: seq<Try>) {
    tries != [] && tries[|tries| - 1].Worked?
  }

  /** No construction, one, or a failed one on the GPU and then exactly one on the CPU. */
  predicate Retried(tries: seq<Try>) {
    match |tries|
    case 0 => true
    case 1 => !OnGpuBroke(tries[0])
    case 2 => OnGpuBroke(tries[0]) && tries[1].layers == 0
    case _ => false
  }

  /** A working construction is the kept model; after a retry the kept line names what failed on the GPU. */
  predicate Stands(sh: Shared, tries: seq<Try>) {
    EndsWorking(tries) ==>
      && sh.llama.Some? && sh.llama.value.layers == tries[|tries| - 1].layers
      && sh.inferenceLine.Some?
      && (|tries| == 2 && tries[0].Broke? ==> sh.inferenceLine == Some(CpuLoadFailed(tries[0].exception)))
  }

  /** The constructions a thread has made so far in its call, by where it stands. */
  predicate TriesOk(sh: Shared, l: Local) {
    match l.pc
    case AwaitGenerateLock => l.tries == [] && !l.loading
    case FastRead => l.tries == []
    case AwaitBuildLock => l.tries == []
    case CheckAgain => l.tries == []
    case Preflight => l.tries == []
    case Construct(_, _) => l.tries == []
    case ConstructOnCpu(line) =>
      |l.tries| == 1 && OnGpuBroke(l.tries[0]) && line == CpuLoadFailed(l.tries[0].exception)
    case SetLine(line) =>
      && Retried(l.tries) && EndsWorking(l.tries)
      && sh.llama.Some? && sh.llama.value.layers == l.tries[|l.tries| - 1].layers
      && (|l.tries| == 2 ==> line == CpuLoadFailed(l.tries[0].exception))
    case LeaveEnsure(ensured) =>
      && Retried(l.tries) && Stands(sh, l.tries)
      && (ensured.None? ==> !EndsWorking(l.tries) || sh.observerRaised)
      && (ensured.Some? ==> l.tries == [] || EndsWorking(l.tries))
    case Idle =>
      && Retried(l.tries) && Stands(sh, l.tries)
      && (l.loading && l.last.Raised? ==> !EndsWorking(l.tries) || sh.observerRaised)
      && (l.last.Loaded? || l.last.Completed? ==> l.tries == [] || EndsWorking(l.tries))
      && (l.last.Completed? ==> l.last.grammar == l.text)
    case LeaveGenerate(completed) =>
      Retried(l.tries) && Stands(sh, l.tries) && (completed ==> l.tries == [] || EndsWorking(l.tries))
    case _ => Retried(l.tries) && Stands(sh, l.tries) && (l.tries == [] || EndsWorking(l.tries))
  }

  /** Who is generating did not ask to load. */
  predicate CallOk(l: Local) {
    !l.pc.Idle? ==> l.loading != l.generating
  }

  predicate Known(sh: Shared, l: Local) {
    TriesOk(sh, l) && CallOk(l)
  }

  predicate StepKnown(sh: Shared, t: Tid, l: Local, c: Choice) {
    var (sh', l') := ThreadStep(sh, t, l, c);
    Known(sh', l')
  }

  lemma ConstructingKnown(sh: Shared, t: Tid, l: Local, c: Choice)
    requires SharedOk(sh) && LocalOk(sh, t, l) && Known(sh, l)
    requires l.pc.Construct? || l.pc.ConstructOnCpu? || l.pc.SetLine?
    ensures StepKnown(sh, t, l, c)
  {
  }

  lemma PublishingKnown(sh: Shared, t: Tid, l: Local, c: Choice)
    requires SharedOk(sh) && LocalOk(sh, t, l) && Known(sh, l)
    requires l.pc.Announce? || l.pc.SetGrammarClass?
    ensures StepKnown(sh, t, l, c)
  {
  }

  lemma LeavingKnown(sh: Shared, t: Tid, l: Local, c: Choice)
    requires SharedOk(sh) && LocalOk(sh, t, l) && Known(sh, l)
    requires l.pc.LeaveEnsure?
    ensures StepKnown(sh, t, l, c)
  {
  }

  lemma CallingKnown(sh: Shared, t: Tid, l: Local, c: Choice)
    requires SharedOk(sh) && LocalOk(sh, t, l) && Known(sh, l)
    requires l.pc.Idle? || l.pc.AwaitGenerateLock? || l.pc.FastRead? || l.pc.AwaitBuildLock? || l.pc.CheckAgain? ||
             l.pc.Preflight?
    ensures StepKnown(sh, t, l, c)
  {
  }

  lemma GeneratingKnown(sh: Shared, t: Tid, l: Local, c: Choice)
    requires SharedOk(sh) && LocalOk(sh, t, l) && Known(sh, l)
    requires l.pc.CompileGrammar? || l.pc.StoreGrammarText? || l.pc.StartEvaluation? || l.pc.Evaluating? ||
             l.pc.LeaveGenerate?
    ensures StepKnown(sh, t, l, c)
  {
  }

  lemma OwnStepKnown(sh: Shared, t: Tid, l: Local, c: Choice)
    requires SharedOk(sh) && LocalOk(sh, t, l) && Known(sh, l)
    ensures StepKnown(sh, t, l, c)
  {
    match l.pc
    case Construct(_, _) => ConstructingKnown(sh, t, l, c);
    case ConstructOnCpu(_) => ConstructingKnown(sh, t, l, c);
    case SetLine(_) => ConstructingKnown(sh, t, l, c);
    case Announce(_) => PublishingKnown(sh, t, l, c);
    case SetGrammarClass => PublishingKnown(sh, t, l, c);
    case LeaveEnsure(_) => LeavingKnown(sh, t, l, c);
    case CompileGrammar => GeneratingKnown(sh, t, l, c);
    case StoreGrammarText => GeneratingKnown(sh, t, l, c);
    case StartEvaluation => GeneratingKnown(sh, t, l, c);
    case Evaluating => GeneratingKnown(sh, t, l, c);
    case LeaveGenerate(_) => GeneratingKnown(sh, t, l, c);
    case _ => CallingKnown(sh, t, l, c);
  }

  /** Model, line and the observer's exception stay once they are there. */
  predicate Later(sh: Shared, sh': Shared) {
    && (sh.llama.Some? ==> sh'.llama == sh.llama)
    && (sh.inferenceLine.Some? ==> sh'.inferenceLine == sh.inferenceLine)
    && (sh.observerRaised ==> sh'.observerRaised)
  }

  lemma StepIsLater(sh: Shared, t: Tid, l: Local, c: Choice)
    requires SharedOk(sh) && LocalOk(sh, t, l)
    ensures Later(sh, ThreadStep(sh, t, l, c).0)
  {
    StepKeepsPast(sh, t, l, c);
  }

  lemma OthersStayKnown(sh: Shared, sh': Shared, l: Local)
    requires Known(sh, l) && Later(sh, sh')
    ensures Known(sh', l)
  {
  }

  ghost predicate AllKnown(s: System) {
    forall t :: t in s.threads ==> Known(s.sh, s.threads[t])
  }

  lemma StepKeepsKnown(s: System, t: Tid, c: Choice)
    requires Inv(s) && AllKnown(s)
    ensures AllKnown(Step(s, t, c))
  {
    if t in s.threads {
      var s' := Step(s, t, c);
      OwnStepKnown(s.sh, t, s.threads[t], c);
      StepIsLater(s.sh, t, s.threads[t], c);
      forall u | u in s'.threads
        ensures Known(s'.sh, s'.threads[u])
      {
        if u != t {
          OthersStayKnown(s.sh, s'.sh, s.threads[u]);
        }
      }
    }
  }

  lemma {:induction false} RunKeepsKnown(s: System, schedule: seq<(Tid, Choice)>)
    requires Inv(s) && AllKnown(s)
    ensures AllKnown(Run(s, schedule))
    decreases |schedule|
  {
    if schedule == [] {
    } else {
      StepKeepsInvariant(s, schedule[0].0, schedule[0].1);
      StepKeepsKnown(s, schedule[0].0, schedule[0].1);
      RunKeepsKnown(Step(s, schedule[0].0, schedule[0].1), schedule[1..]);
    }
  }

  /**
   Over every schedule, what the last call of an idle thread constructed. A failed GPU construction was followed by
   exactly one on the CPU and nothing else ever was; a working one is the kept model, and after a failed GPU one that
   model has no layers on the GPU and the kept line names the failure; a `load` that raised after a working
   construction raised because the verdict observer did; and a completion was decoded under its own grammar.
   */
  lemma GpuFailureIsRetriedOnCpu(tids: set<Tid>, observed: bool, schedule: seq<(Tid, Choice)>, t: Tid)
    requires t in After(tids, observed, schedule).threads
    ensures var s := After(tids, observed, schedule);
            var l := s.threads[t];
            l.pc.Idle? ==>
              && Retried(l.tries)
              && (EndsWorking(l.tries) ==>
                    s.sh.llama.Some? && s.sh.llama.value.layers == l.tries[|l.tries| - 1].layers)
              && (|l.tries| == 2 && EndsWorking(l.tries) ==>
                    s.sh.llama.value.layers == 0 &&
                    s.sh.inferenceLine == Some(CpuLoadFailed(l.tries[0].exception)))
              && (l.loading && l.last.Raised? ==> !EndsWorking(l.tries) || s.sh.observerRaised)
              && (l.last.Loaded? || l.last.Completed? ==> l.tries == [] || EndsWorking(l.tries))
              && (l.last.Completed? ==> l.last.grammar == l.text)
  {
    RunKeepsKnown(Init(tids, observed), schedule);
    var s := After(tids, observed, schedule);
    assert Known(s.sh, s.threads[t]);
  }

  /**
   Waiting for the lock ends in two ways: the lock is free or one's own and is taken once more, or another thread
   holds it past the bound and the call raises, with nothing changed. Until then nothing moves.
   */
  lemma WaitingEndsExactly(sh: Shared, t: Tid, l: Local, c: Choice)
    requires LocalOk(sh, t, l) && (l.pc.AwaitGenerateLock? || l.pc.AwaitBuildLock?)
    ensures var (sh', l') := ThreadStep(sh, t, l, c);
            var free := sh.owner.None? || sh.owner == Some(t);
            && (free && c.Proceed? ==>
                  sh' == sh.(owner := Some(t), depth := sh.depth + 1) &&
                  l'.pc == if l.pc.AwaitGenerateLock? then FastRead else CheckAgain)
            && (!free && c.TimeOut? ==> sh' == sh && l'.pc.Idle? && l'.last == Raised)
            && (!(free && c.Proceed?) && !(!free && c.TimeOut?) ==> (sh', l') == (sh, l))
  {
  }

  // ---------------------------------------------------------------- a load that is alone

  /** One thread's moves while no other moves. */
  function Alone(sh: Shared, t: Tid, l: Local, moves: seq<Choice>): (Shared, Local)
    decreases |moves|
  {
    if moves == [] then (sh, l)
    else
      var (sh', l') := ThreadStep(sh, t, l, moves[0]);
      Alone(sh', t, l', moves[1..])
  }

  lemma {:induction false} AloneIsARun(s: System, t: Tid, moves: seq<Choice>)
    requires t in s.threads
    ensures var (sh, l) := Alone(s.sh, t, s.threads[t], moves);
            Run(s, seq(|moves|, i requires 0 <= i < |moves| => (t, moves[i]))) == System(sh, s.threads[t := l])
    decreases |moves|
  {
    var schedule := seq(|moves|, i requires 0 <= i < |moves| => (t, moves[i]));
    if moves == [] {
      assert s.threads[t := s.threads[t]] == s.threads;
    } else {
      var next := Step(s, t, moves[0]);
      AloneIsARun(next, t, moves[1..]);
      assert schedule[1..] == seq(|moves[1..]|, i requires 0 <= i < |moves[1..]| => (t, moves[1..][i]));
      assert next.threads[t := Alone(next.sh, t, next.threads[t], moves[1..]).1] ==
             s.threads[t := Alone(next.sh, t, next.threads[t], moves[1..]).1];
    }
  }

  lemma {:induction false} AloneSplits(sh: Shared, t: Tid, l: Local, first: seq<Choice>, more: seq<Choice>)
    ensures var (sh', l') := Alone(sh, t, l, first);
            Alone(sh, t, l, first + more) == Alone(sh', t, l', more)
    decreases |first|
  {
    if first == [] {
      assert first + more == more;
    } else {
      var (sh', l') := ThreadStep(sh, t, l, first[0]);
      assert (first + more)[1..] == first[1..] + more;
      AloneSplits(sh', t, l', first[1..], more);
    }
  }

  lemma FourMoves(sh: Shared, t: Tid, l: Local, moves: seq<Choice>)
    requires |moves| == 4
    ensures var (sh1, l1) := ThreadStep(sh, t, l, moves[0]);
            var (sh2, l2) := ThreadStep(sh1, t, l1, moves[1]);
            var (sh3, l3) := ThreadStep(sh2, t, l2, moves[2]);
            Alone(sh, t, l, moves) == ThreadStep(sh3, t, l3, moves[3])
  {
    AloneSplits(sh, t, l, moves[..3], moves[3..]);
    AloneSplits(sh, t, l, moves[..2], moves[2..3]);
    AloneSplits(sh, t, l, moves[..1], moves[1..2]);
    assert moves[..3] + moves[3..] == moves && moves[..2] + moves[2..3] == moves[..3];
    assert moves[..1] + moves[1..2] == moves[..2];
    OneMove(sh, t, l, moves[0]);
    assert moves[..1] == [moves[0]] && moves[1..2] == [moves[1]] && moves[2..3] == [moves[2]];
    assert moves[3..] == [moves[3]];
  }

  lemma OneMove(sh: Shared, t: Tid, l: Local, move: Choice)
    ensures Alone(sh, t, l, [move]) == ThreadStep(sh, t, l, move)
  {
    assert [move][1..] == [];
  }

  /** Nobody is in a call and there is no model. */
  predicate Unbuilt(sh: Shared, l: Local) {
    sh.owner.None? && sh.depth == 0 && sh.llama.None? && l.pc.Idle?
  }

  const ENTER: seq<Choice> := [CallLoad, Proceed, Proceed, Proceed]
  const PUBLISH: seq<Choice> := [Proceed, Proceed, Proceed, Proceed]

  lemma EntersTheBuild(sh: Shared, t: Tid, l: Local)
    requires Unbuilt(sh, l)
    ensures Alone(sh, t, l, ENTER) ==
            (Take(sh, t), l.(pc := Preflight, generating := false, loading := true, tries := []))
  {
    FourMoves(sh, t, l, ENTER);
  }

  lemma PublishesTheModel(sh: Shared, t: Tid, l: Local, line: Verdict)
    requires l.pc == SetLine(line) && !l.generating && sh.depth == 1 && sh.llama.Some?
    ensures var (sh', l') := Alone(sh, t, l, PUBLISH);
            && l'.pc.Idle? && l'.last == Loaded(sh.llama.value)
            && sh'.llama == sh.llama && sh'.inferenceLine == Some(line) && sh'.grammarClass && sh'.owner.None?
  {
    FourMoves(sh, t, l, PUBLISH);
  }

  /** A load that found the files, the wheel and the settings in order, and how its constructions end. */
  function Moves(override: Option<int>, backends: Backends, ends: seq<Choice>): seq<Choice> {
    ENTER + ([Offload(override, backends)] + ends)
  }

  lemma ReachesTheConstruction(sh: Shared, t: Tid, l: Local, override: Option<int>, backends: Backends,
                               ends: seq<Choice>)
    requires Unbuilt(sh, l)
    ensures var (layers, line) := GpuOffloadDecision(override, backends);
            Alone(sh, t, l, Moves(override, backends, ends)) ==
            Alone(Take(sh, t), t,
                  l.(pc := Construct(layers, line), generating := false, loading := true, tries := []), ends)
  {
    EntersTheBuild(sh, t, l);
    AloneSplits(sh, t, l, ENTER, [Offload(override, backends)] + ends);
    var (sh1, l1) := Alone(sh, t, l, ENTER);
    AloneSplits(sh1, t, l1, [Offload(override, backends)], ends);
    OneMove(sh1, t, l1, Offload(override, backends));
  }

  /**
   What a load that is alone ends in. A construction that works is served under the decided line; one that fails on
   the GPU is made again on the CPU, and that model is served under the line naming the failure; one that fails on
   the CPU, at once or at the retry, makes the load raise with no model kept.
   */
  lemma LoneLoadExactly(sh: Shared, t: Tid, l: Local, override: Option<int>, backends: Backends, e: string, e2: string)
    requires Unbuilt(sh, l)
    ensures var (layers, line) := GpuOffloadDecision(override, backends);
            && Serves(Alone(sh, t, l, Moves(override, backends, [Proceed] + PUBLISH)), layers, line)
            && (layers == 0 ==> GivesUp(Alone(sh, t, l, Moves(override, backends, [Fail(e), Proceed]))))
            && (layers != 0 ==>
                  Serves(Alone(sh, t, l, Moves(override, backends, [Fail(e), Proceed] + PUBLISH)), 0,
                         CpuLoadFailed(e)) &&
                  GivesUp(Alone(sh, t, l, Moves(override, backends, [Fail(e), Fail(e2), Proceed]))))
  {
    var (layers, line) := GpuOffloadDecision(override, backends);
    var at := l.(pc := Construct(layers, line), generating := false, loading := true, tries := []);
    ReachesTheConstruction(sh, t, l, override, backends, [Proceed] + PUBLISH);
    WorkingIsServed(Take(sh, t), t, at, layers, line);
    if layers == 0 {
      ReachesTheConstruction(sh, t, l, override, backends, [Fail(e), Proceed]);
      CpuFailureGivesUp(Take(sh, t), t, at, line, e);
    } else {
      ReachesTheConstruction(sh, t, l, override, backends, [Fail(e), Proceed] + PUBLISH);
      ReachesTheConstruction(sh, t, l, override, backends, [Fail(e), Fail(e2), Proceed]);
      GpuFailureFallsBack(Take(sh, t), t, at, layers, line, e);
      RetryFailureGivesUp(Take(sh, t), t, at, layers, line, e, e2);
    }
  }

  predicate Serves(end: (Shared, Local), layers: int, line: Verdict) {
    && end.1.pc.Idle? && end.1.last.Loaded? && end.0.llama == Some(end.1.last.llama)
    && end.1.last.llama.layers == layers && end.0.inferenceLine == Some(line) && end.0.owner.None?
  }

  predicate GivesUp(end: (Shared, Local)) {
    end.1.pc.Idle? && end.1.last == Raised && end.0.llama.None? && end.0.owner.None?
  }

  /** At the construction, alone and holding the lock once. */
  predicate Constructing(sh: Shared, l: Local, layers: int, line: Verdict) {
    l.pc == Construct(layers, line) && !l.generating && sh.depth == 1 && sh.llama.None?
  }

  lemma WorkingIsServed(sh: Shared, t: Tid, l: Local, layers: int, line: Verdict)
    requires Constructing(sh, l, layers, line)
    ensures Serves(Alone(sh, t, l, [Proceed] + PUBLISH), layers, line)
  {
    AloneSplits(sh, t, l, [Proceed], PUBLISH);
    OneMove(sh, t, l, Proceed);
    var (sh1, l1) := ThreadStep(sh, t, l, Proceed);
    PublishesTheModel(sh1, t, l1, line);
  }

  lemma CpuFailureGivesUp(sh: Shared, t: Tid, l: Local, line: Verdict, e: string)
    requires Constructing(sh, l, 0, line)
    ensures GivesUp(Alone(sh, t, l, [Fail(e), Proceed]))
  {
    AloneSplits(sh, t, l, [Fail(e)], [Proceed]);
    OneMove(sh, t, l, Fail(e));
    var (sh1, l1) := ThreadStep(sh, t, l, Fail(e));
    OneMove(sh1, t, l1, Proceed);
    assert [Fail(e)] + [Proceed] == [Fail(e), Proceed];
  }

  lemma GpuFailureFallsBack(sh: Shared, t: Tid, l: Local, layers: int, line: Verdict, e: string)
    requires Constructing(sh, l, layers, line) && layers != 0
    ensures Serves(Alone(sh, t, l, [Fail(e), Proceed] + PUBLISH), 0, CpuLoadFailed(e))
  {
    OneMove(sh, t, l, Fail(e));
    var (sh1, l1) := ThreadStep(sh, t, l, Fail(e));
    assert [Fail(e), Proceed] + PUBLISH == [Fail(e)] + ([Proceed] + PUBLISH);
    AloneSplits(sh, t, l, [Fail(e)], [Proceed] + PUBLISH);
    AloneSplits(sh1, t, l1, [Proceed], PUBLISH);
    OneMove(sh1, t, l1, Proceed);
    var (sh2, l2) := ThreadStep(sh1, t, l1, Proceed);
    PublishesTheModel(sh2, t, l2, CpuLoadFailed(e));
  }

  lemma RetryFailureGivesUp(sh: Shared, t: Tid, l: Local, layers: int, line: Verdict, e: string, e2: string)
    requires Constructing(sh, l, layers, line) && layers != 0
    ensures GivesUp(Alone(sh, t, l, [Fail(e), Fail(e2), Proceed]))
  {
    OneMove(sh, t, l, Fail(e));
    var (sh1, l1) := ThreadStep(sh, t, l, Fail(e));
    assert [Fail(e), Fail(e2), Proceed] == [Fail(e)] + ([Fail(e2)] + [Proceed]);
    AloneSplits(sh, t, l, [Fail(e)], [Fail(e2)] + [Proceed]);
    AloneSplits(sh1, t, l1, [Fail(e2)], [Proceed]);
    OneMove(sh1, t, l1, Fail(e2));
    var (sh2, l2) := ThreadStep(sh1, t, l1, Fail(e2));
    OneMove(sh2, t, l2, Proceed);
  }

  // ---------------------------------------------------------------- a generation that is alone

  lemma TakesTheModel(sh: Shared, t: Tid, l: Local, text: string)
    requires sh.owner.None? && sh.depth == 0 && sh.llama.Some? && sh.grammarClass && l.pc.Idle?
    ensures Alone(sh, t, l, [CallGenerate(text), Proceed, Proceed]) ==
            (Take(sh, t), l.(pc := CompileGrammar, generating := true, text := text, loading := false, tries := [],
                             llama := sh.llama))
  {
    AloneSplits(sh, t, l, [CallGenerate(text), Proceed], [Proceed]);
    AloneSplits(sh, t, l, [CallGenerate(text)], [Proceed]);
    assert [CallGenerate(text), Proceed, Proceed] == [CallGenerate(text), Proceed] + [Proceed];
    assert [CallGenerate(text), Proceed] == [CallGenerate(text)] + [Proceed];
    OneMove(sh, t, l, CallGenerate(text));
    var (sh1, l1) := ThreadStep(sh, t, l, CallGenerate(text));
    OneMove(sh1, t, l1, Proceed);
    var (sh2, l2) := ThreadStep(sh1, t, l1, Proceed);
    OneMove(sh2, t, l2, Proceed);
  }

  lemma EvaluatesTheModel(sh: Shared, t: Tid, l: Local)
    requires l.pc.StartEvaluation? && l.llama.Some? && l.used.Some? && sh.depth == 1
    ensures var (sh', l') := Alone(sh, t, l, [Proceed, Proceed, Proceed]);
            l'.pc.Idle? && l'.last == Completed(l.llama.value, l.used.value) && sh' == Release(sh)
  {
    AloneSplits(sh, t, l, [Proceed, Proceed], [Proceed]);
    AloneSplits(sh, t, l, [Proceed], [Proceed]);
    assert [Proceed, Proceed, Proceed] == [Proceed, Proceed] + [Proceed];
    assert [Proceed, Proceed] == [Proceed] + [Proceed];
    OneMove(sh, t, l, Proceed);
    var (sh1, l1) := ThreadStep(sh, t, l, Proceed);
    OneMove(sh1, t, l1, Proceed);
    var (sh2, l2) := ThreadStep(sh1, t, l1, Proceed);
    OneMove(sh2, t, l2, Proceed);
  }

  /**
   A generation that is alone with a built model completes on that model under its own grammar: compiled now, or the
   one compiled last when its text is the same, in which case nothing is compiled.
   */
  lemma LoneGenerateCompletes(sh: Shared, t: Tid, l: Local, text: string)
    requires sh.owner.None? && sh.depth == 0 && sh.llama.Some? && sh.grammarClass && l.pc.Idle?
    requires sh.grammar == sh.grammarText
    ensures var compile := if sh.grammarText == Some(text) then [Proceed] else [Proceed, Proceed];
            var (sh', l') := Alone(sh, t, l, [CallGenerate(text), Proceed, Proceed] + (compile + [Proceed, Proceed, Proceed]));
            && l'.pc.Idle? && l'.last == Completed(sh.llama.value, text)
            && sh' == sh.(grammar := Some(text), grammarText := Some(text))
  {
    var compile := if sh.grammarText == Some(text) then [Proceed] else [Proceed, Proceed];
    TakesTheModel(sh, t, l, text);
    AloneSplits(sh, t, l, [CallGenerate(text), Proceed, Proceed], compile + [Proceed, Proceed, Proceed]);
    var (sh1, l1) := Alone(sh, t, l, [CallGenerate(text), Proceed, Proceed]);
    CompilesTheGrammar(sh1, t, l1, text);
    AloneSplits(sh1, t, l1, compile, [Proceed, Proceed, Proceed]);
    var (sh2, l2) := Alone(sh1, t, l1, compile);
    EvaluatesTheModel(sh2, t, l2);
  }

  lemma CompilesTheGrammar(sh: Shared, t: Tid, l: Local, text: string)
    requires l.pc.CompileGrammar? && l.text == text && sh.grammarClass && sh.grammar == sh.grammarText
    ensures Alone(sh, t, l, if sh.grammarText == Some(text) then [Proceed] else [Proceed, Proceed]) ==
            (sh.(grammar := Some(text), grammarText := Some(text)), l.(pc := StartEvaluation, used := Some(text)))
  {
    OneMove(sh, t, l, Proceed);
    if sh.grammarText != Some(text) {
      AloneSplits(sh, t, l, [Proceed], [Proceed]);
      assert [Proceed, Proceed] == [Proceed] + [Proceed];
      var (sh1, l1) := ThreadStep(sh, t, l, Proceed);
      OneMove(sh1, t, l1, Proceed);
    }
  }
}
